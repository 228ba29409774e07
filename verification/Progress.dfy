/** How one round's storage may evolve: legal status moves, a frozen index, and reveals that stick. */
module Progress {
  import opened Prelude
  import opened RoundTypes
  import Spec = RoundSpec
  import opened RoundInvariant
  import opened Payout
  import opened Settlement
  import opened Runs
  import Lifecycle

  /** The arrows of the round's state machine. */
  ghost predicate Arrow(x: Status, y: Status) {
    match x
    case Open => y in {Revealing, Voided}
    case Revealing => y in {Cleared, Voided}
    case Cleared => y == Settled
    case Settled => false
    case Voided => false
  }

  ghost predicate Reaches(x: Status, y: Status) {
    x == y || Arrow(x, y) || exists z :: Arrow(x, z) && (Arrow(z, y) || exists w :: Arrow(z, w) && Arrow(w, y))
  }

  ghost predicate SameTerms(r: Round, q: Round) {
    r.operator == q.operator && r.revealRound == q.revealRound && r.rule == q.rule
    && r.commitDeadline == q.commitDeadline && r.revealDeadline == q.revealDeadline
  }

  /** A revealed value is never changed or forgotten. */
  ghost predicate KeepsReveals(c: Cell, d: Cell) {
    forall a :: a in c.bids ==>
      a in d.bids && (c.bids[a].revealedValue.Some? ==> d.bids[a].revealedValue == c.bids[a].revealedValue)
  }

  /** Past Open: the index, every commitment and every escrow are fixed. */
  ghost predicate Frozen(c: Cell, d: Cell) {
    && d.round.bidders == c.round.bidders
    && forall a :: a in c.bids ==>
          a in d.bids && d.bids[a].commitment == c.bids[a].commitment && d.bids[a].escrow == c.bids[a].escrow
  }

  ghost predicate Evolves(c: Cell, d: Cell) {
    && SameTerms(c.round, d.round)
    && KeepsReveals(c, d)
    && (c.round.status != Open ==> Frozen(c, d))
    && (c.round.status in {Cleared, Settled} ==>
          d.round.winner == c.round.winner && d.round.winningBid == c.round.winningBid)
  }

  lemma CommittedEvolves(c: Cell, b: Address, h: Bytes32, e: i128, ledger: EscrowLedger)
    requires c.round.status == Open && forall a :: a in c.bids ==> c.bids[a].revealedValue == None
    ensures Evolves(c, CommittedCell(c, b, h, e, ledger)) && CommittedCell(c, b, h, e, ledger).round.status == Open
  {
  }

  lemma OpenRevealsNothing(s: State, rid: nat)
    requires Inv(s) && rid in s.cells && s.cells[rid].round.status == Open
    ensures forall a :: a in s.cells[rid].bids ==> s.cells[rid].bids[a].revealedValue == None
  {
    assert StatusOk(s.cells[rid], s.now);
  }

  lemma CommitEvolves(s: State, rid: nat, b: Address, h: Bytes32, len: nat, e: i128, blob: nat, seal: u64)
    requires Inv(s) && Spec.Commit(s, rid, b, h, len, e, blob, seal).Ok?
    ensures var t := Spec.Commit(s, rid, b, h, len, e, blob, seal).value;
            rid in s.cells && rid in t.cells && Evolves(s.cells[rid], t.cells[rid])
            && t.cells[rid].round.status == Open == s.cells[rid].round.status
  {
    hide Spec.Commit, Inv, Evolves, CommittedCell, RoundInv, CommitTransfers;
    CommitEffect(s, rid, b, h, len, e, blob, seal);
    OpenRevealsNothing(s, rid);
    CommittedEvolves(s.cells[rid], b, h, e,
        Spec.Commit(s, rid, b, h, len, e, blob, seal).value.cells[rid].ledger.value);
  }

  lemma PaidOutEvolves(c: Cell, d: Cell, status: Status)
    requires d.bids == MarkAll(c.bids, c.round.bidders) && d.round == c.round.(status := status)
    ensures Evolves(c, d)
  {
  }

  lemma RefundEvolves(s: State, rid: nat)
    requires Inv(s) && rid in s.cells && s.cells[rid].round.status in {Open, Revealing}
    ensures var c := s.cells[rid]; var t := Spec.RefundAll(s, rid, c.(round := c.round.(status := Voided)));
            t.Ok? && rid in t.value.cells && Evolves(c, t.value.cells[rid]) && t.value.cells[rid].round.status == Voided
  {
    RefundCannotFail(s, rid);
    PaidOutEvolves(s.cells[rid], VoidedCell(s.cells[rid]), Voided);
    hide Spec.RefundAll, Evolves, Inv, RoundInv;
  }

  lemma ClearEvolves(s: State, rid: nat)
    requires Inv(s) && Spec.Clear(s, rid).Ok?
    ensures var t := Spec.Clear(s, rid).value.0;
            rid in s.cells && rid in t.cells && Evolves(s.cells[rid], t.cells[rid])
            && Arrow(s.cells[rid].round.status, t.cells[rid].round.status)
  {
    hide Inv;
    var c := s.cells[rid];
    if Spec.BestBid(None, c.bids, c.round.rule, c.round.bidders).None? {
      hide Spec.RefundAll, Evolves;
      RefundEvolves(s, rid);
    }
  }

  lemma VoidEvolves(s: State, rid: nat)
    requires Inv(s) && Spec.Void(s, rid).Ok?
    ensures var t := Spec.Void(s, rid).value;
            rid in s.cells && rid in t.cells && Evolves(s.cells[rid], t.cells[rid])
            && Arrow(s.cells[rid].round.status, t.cells[rid].round.status)
  {
    RefundEvolves(s, rid);
    hide Spec.RefundAll, Evolves;
  }

  lemma SettleEvolves(s: State, rid: nat)
    requires Inv(s) && Spec.Settle(s, rid).Ok?
    ensures var t := Spec.Settle(s, rid).value;
            rid in s.cells && rid in t.cells && Evolves(s.cells[rid], t.cells[rid])
            && Arrow(s.cells[rid].round.status, t.cells[rid].round.status)
  {
    SettleInv(s, rid);
    SettleCannotFail(s, rid);
    PaidOutEvolves(s.cells[rid], SettledCell(s.cells[rid]), Settled);
    hide Spec.Settle, Evolves, Inv, RoundInv;
  }

  lemma OpenRevealEvolves(s: State, rid: nat, ok: bool)
    requires Spec.OpenReveal(s, rid, ok).Ok?
    ensures var t := Spec.OpenReveal(s, rid, ok).value;
            rid in s.cells && rid in t.cells && Evolves(s.cells[rid], t.cells[rid])
            && Arrow(s.cells[rid].round.status, t.cells[rid].round.status)
  {
  }

  lemma RevealEvolves(s: State, rid: nat, b: Address, v: i128, n: Bytes32)
    requires Spec.Reveal(s, rid, b, v, n).Ok?
    ensures var t := Spec.Reveal(s, rid, b, v, n).value;
            rid in s.cells && rid in t.cells && Evolves(s.cells[rid], t.cells[rid])
            && t.cells[rid].round.status == s.cells[rid].round.status
  {
  }

  lemma OwnCallEvolves(s: State, c: Call, rid: nat)
    requires Inv(s) && rid in s.cells && Lifecycle.Target(s, c) == Some(rid) && !c.CreateRound? && Attempt(s, c).Ok?
    ensures rid in Step(s, c).cells && Evolves(s.cells[rid], Step(s, c).cells[rid])
    ensures var x, y := s.cells[rid].round.status, Step(s, c).cells[rid].round.status; x == y || Arrow(x, y)
  {
    hide Inv, Evolves, Arrow, Spec.CreateRound, Spec.Commit, Spec.OpenReveal;
    hide Spec.Reveal, Spec.Clear, Spec.Settle, Spec.Void;
    StepInv(s, c);
    match c {
      case Commit(_, b, h, len, e, blob, r) => CommitEvolves(s, rid, b, h, len, e, blob, r);
      case OpenReveal(_, ok) => OpenRevealEvolves(s, rid, ok);
      case Reveal(_, b, v, n) => RevealEvolves(s, rid, b, v, n);
      case Clear(_) => ClearEvolves(s, rid);
      case Settle(_) => SettleEvolves(s, rid);
      case Void(_) => VoidEvolves(s, rid);
    }
  }

  /** Every call moves every round along an arrow or leaves its status, and evolves its storage. */
  lemma StepEvolves(s: State, c: Call, rid: nat)
    requires Inv(s) && rid in s.cells
    ensures rid in Step(s, c).cells && Evolves(s.cells[rid], Step(s, c).cells[rid])
    ensures var x, y := s.cells[rid].round.status, Step(s, c).cells[rid].round.status; x == y || Arrow(x, y)
  {
    assert s.counter + 1 !in s.cells;
    Lifecycle.CallsStayInTheirRound(s, c);
    if Attempt(s, c).Ok? && Lifecycle.Target(s, c) == Some(rid) {
      OwnCallEvolves(s, c, rid);
    }
    hide Inv, Attempt, Arrow;
  }

  lemma ReachesStep(x: Status, y: Status, z: Status)
    requires Reaches(x, y) && (y == z || Arrow(y, z))
    ensures Reaches(x, z)
  {
  }

  lemma EvolvesTrans(c: Cell, d: Cell, e: Cell)
    requires Evolves(c, d) && Evolves(d, e) && Reaches(c.round.status, d.round.status)
    ensures Evolves(c, e)
  {
  }

  /**
   * Over any run a round's status only moves forward along its arrows, its terms never change, past
   * Open its index, commitments and escrows never change, and a revealed value is there for good.
   */
  lemma {:induction false} RunEvolves(s: State, calls: seq<Call>, rid: nat)
    requires Inv(s) && rid in s.cells
    ensures rid in Run(s, calls).cells && Evolves(s.cells[rid], Run(s, calls).cells[rid])
    ensures Reaches(s.cells[rid].round.status, Run(s, calls).cells[rid].round.status)
  {
    if calls != [] {
      var front, last := calls[..|calls| - 1], calls[|calls| - 1];
      RunEvolves(s, front, rid);
      RunInv(s, front);
      var mid := Run(s, front);
      StepEvolves(mid, last, rid);
      ReachesStep(s.cells[rid].round.status, mid.cells[rid].round.status, Step(mid, last).cells[rid].round.status);
      EvolvesTrans(s.cells[rid], mid.cells[rid], Step(mid, last).cells[rid]);
    }
  }
}
