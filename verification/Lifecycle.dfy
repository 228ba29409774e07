/** Calls stay within their round, finished rounds stay finished, and which live rounds can still be finished. */
module Lifecycle {
  import opened Prelude
  import opened RoundTypes
  import Spec = RoundSpec
  import opened RoundInvariant
  import opened Payout
  import opened Settlement
  import opened Runs

  // ---- Isolation -------------------------------------------------------------------

  /** The round a call names; a created round gets the next id. */
  ghost function Target(s: State, c: Call): Option<nat> {
    match c
    case CreateRound(_, _, _, _, _, _) => Some(s.counter + 1)
    case Tick(_) => None
    case TokenTraffic(_) => None
    case _ => Some(c.rid)
  }

  ghost predicate Tagged(ts: seq<Transfer>, rid: nat) {
    forall t :: t in ts ==> t.round == rid
  }

  lemma {:induction false} SettleTransfersTagged(rid: nat, op: Address, winner: Address, w: i128,
          bids: map<Address, BidState>, bidders: seq<Address>)
    requires Payable(bids, winner, w, bidders)
    ensures Tagged(SettleTransfers(rid, op, winner, w, bids, bidders), rid)
    decreases |bidders|
  {
    if bidders != [] {
      SettleTransfersTagged(rid, op, winner, w, bids, bidders[1..]);
    }
  }

  lemma {:induction false} RefundTransfersTagged(rid: nat, bids: map<Address, BidState>, bidders: seq<Address>)
    requires forall b :: b in bidders ==> b in bids
    ensures Tagged(RefundTransfers(rid, bids, bidders), rid)
    decreases |bidders|
  {
    if bidders != [] {
      RefundTransfersTagged(rid, bids, bidders[1..]);
    }
  }

  /** From `s` to `t` only round `rid` was written, and only its transfers were logged. */
  ghost predicate Confined(s: State, t: State, rid: nat) {
    && (forall k :: k != rid ==> (k in s.cells <==> k in t.cells) && (k in s.cells ==> t.cells[k] == s.cells[k]))
    && s.log <= t.log && Tagged(t.log[|s.log|..], rid)
  }

  lemma ConfinedBy(s: State, t: State, rid: nat, c: Cell, ts: seq<Transfer>)
    requires t.cells == s.cells[rid := c] && t.log == s.log + ts && Tagged(ts, rid)
    ensures Confined(s, t, rid)
  {
    assert t.log[|s.log|..] == ts;
  }

  lemma RefundConfined(s: State, rid: nat)
    requires Inv(s) && rid in s.cells && s.cells[rid].round.status in {Open, Revealing}
    ensures var c := s.cells[rid]; var t := Spec.RefundAll(s, rid, c.(round := c.round.(status := Voided)));
            t.Ok? && Confined(s, t.value, rid)
  {
    RefundCannotFail(s, rid);
    var c := s.cells[rid];
    RefundTransfersTagged(rid, c.bids, c.round.bidders);
    ConfinedBy(s, Spec.RefundAll(s, rid, c.(round := c.round.(status := Voided))).value, rid, VoidedCell(c),
               RefundTransfers(rid, c.bids, c.round.bidders));
  }

  lemma SettleConfined(s: State, rid: nat)
    requires Inv(s) && Spec.Settle(s, rid).Ok?
    ensures Confined(s, Spec.Settle(s, rid).value, rid)
  {
    SettleInv(s, rid);
    SettleCannotFail(s, rid);
    var c := s.cells[rid];
    var r := c.round;
    SettleTransfersTagged(rid, r.operator, r.winner.value, r.winningBid, c.bids, r.bidders);
    ConfinedBy(s, Spec.Settle(s, rid).value, rid, SettledCell(c),
               SettleTransfers(rid, r.operator, r.winner.value, r.winningBid, c.bids, r.bidders));
  }

  lemma CommitConfined(s: State, rid: nat, b: Address, h: Bytes32, len: nat, e: i128, blob: nat, seal: u64)
    requires Inv(s) && Spec.Commit(s, rid, b, h, len, e, blob, seal).Ok?
    ensures Confined(s, Spec.Commit(s, rid, b, h, len, e, blob, seal).value, rid)
  {
    CommitEffect(s, rid, b, h, len, e, blob, seal);
    var t := Spec.Commit(s, rid, b, h, len, e, blob, seal).value;
    ConfinedBy(s, t, rid, t.cells[rid], CommitTransfers(rid, s.cells[rid].bids, b, e));
  }

  lemma ClearConfined(s: State, rid: nat)
    requires Inv(s) && Spec.Clear(s, rid).Ok?
    ensures Confined(s, Spec.Clear(s, rid).value.0, rid)
  {
    var c := s.cells[rid];
    if Spec.BestBid(None, c.bids, c.round.rule, c.round.bidders).None? {
      RefundConfined(s, rid);
    } else {
      var t := Spec.Clear(s, rid).value.0;
      ConfinedBy(s, t, rid, t.cells[rid], []);
    }
  }

  lemma VoidConfined(s: State, rid: nat)
    requires Inv(s) && Spec.Void(s, rid).Ok?
    ensures Confined(s, Spec.Void(s, rid).value, rid)
  {
    RefundConfined(s, rid);
  }

  /** A call on one round leaves every other round's storage as it was, and pays nobody for it. */
  lemma CallsStayInTheirRound(s: State, c: Call)
    requires Inv(s)
    ensures match Target(s, c)
            case Some(rid) => Confined(s, Step(s, c), rid)
            case None => Step(s, c).cells == s.cells && Step(s, c).log == s.log
  {
    hide Inv, Spec.Commit, Spec.Clear, Spec.Settle, Spec.Void;
    if Attempt(s, c).Ok? {
      match c {
        case Commit(rid, b, h, len, e, blob, r) => CommitConfined(s, rid, b, h, len, e, blob, r);
        case Clear(rid) => ClearConfined(s, rid);
        case Settle(rid) => SettleConfined(s, rid);
        case Void(rid) => VoidConfined(s, rid);
        case _ =>
      }
    }
  }

  // ---- Finished rounds -----------------------------------------------------------------

  ghost predicate Terminal(s: State, rid: nat) {
    rid in s.cells && s.cells[rid].round.status in {Settled, Voided}
  }

  /** Every call naming a finished round is refused. */
  lemma TerminalRefuses(s: State, c: Call, rid: nat)
    requires Inv(s) && Terminal(s, rid) && Target(s, c) == Some(rid)
    ensures Attempt(s, c).Err?
  {
    assert s.counter + 1 !in s.cells;
    hide Inv, Spec.CreateRound, Spec.Commit, Spec.OpenReveal, Spec.Reveal, Spec.Clear, Spec.Settle, Spec.Void;
    match c {
      case Commit(_, b, h, len, e, blob, r) => CommitRefused(s, rid, b, h, len, e, blob, r);
      case OpenReveal(_, ok) => OpenRevealRefused(s, rid, ok);
      case Reveal(_, b, v, n) => RevealRefused(s, rid, b, v, n);
      case _ => EndRefused(s, rid);
    }
  }

  lemma CommitRefused(s: State, rid: nat, b: Address, h: Bytes32, len: nat, e: i128, blob: nat, r: u64)
    requires Terminal(s, rid)
    ensures Spec.Commit(s, rid, b, h, len, e, blob, r).Err?
  {
    hide Spec.AcceptBid;
  }

  lemma OpenRevealRefused(s: State, rid: nat, ok: bool)
    requires Terminal(s, rid)
    ensures Spec.OpenReveal(s, rid, ok).Err?
  {
  }

  lemma RevealRefused(s: State, rid: nat, b: Address, v: i128, n: Bytes32)
    requires Terminal(s, rid)
    ensures Spec.Reveal(s, rid, b, v, n).Err?
  {
    hide Spec.EnsureLedger, Spec.ProveConserved;
  }

  lemma EndRefused(s: State, rid: nat)
    requires Terminal(s, rid)
    ensures Spec.Clear(s, rid).Err? && Spec.Settle(s, rid).Err? && Spec.Void(s, rid).Err?
  {
    hide Spec.SettleCleared, Spec.RefundAll, Spec.BestBid;
  }

  /** Finished rounds are absorbing: no later call changes one, and none moves a token for it. */
  lemma {:induction false} TerminalAbsorbs(s: State, calls: seq<Call>, rid: nat)
    requires Inv(s) && Terminal(s, rid)
    ensures var t := Run(s, calls);
            && rid in t.cells && t.cells[rid] == s.cells[rid]
            && s.log <= t.log && forall i :: |s.log| <= i < |t.log| ==> t.log[i].round != rid
  {
    hide Inv, Attempt;
    if calls != [] {
      var front, last := calls[..|calls| - 1], calls[|calls| - 1];
      TerminalAbsorbs(s, front, rid);
      RunInv(s, front);
      var mid := Run(s, front);
      CallsStayInTheirRound(mid, last);
      if Target(mid, last) == Some(rid) {
        TerminalRefuses(mid, last, rid);
      } else {
        var t := Step(mid, last);
        forall i | |s.log| <= i < |t.log|
          ensures t.log[i].round != rid
        {
          if i >= |mid.log| {
            assert t.log[i] in t.log[|mid.log|..];
          }
        }
      }
    }
  }

  // ---- Liveness ---------------------------------------------------------------------------

  /** Finished, with nothing locked. */
  ghost predicate Drained(s: State, rid: nat) {
    && Terminal(s, rid)
    && s.cells[rid].ledger.Some? && s.cells[rid].ledger.value.locked == 0
    && CellHeld(s.cells[rid]) == 0
  }

  /** The permissionless calls that finish a live round after the grace period. */
  ghost function Rescue(s: State, rid: nat): seq<Call>
    requires rid in s.cells
  {
    var c := s.cells[rid];
    match c.round.status
    case Open => [Call.Void(rid)]
    case Revealing =>
      if Spec.BestBid(None, c.bids, c.round.rule, c.round.bidders).None? then [Call.Clear(rid)]
      else [Call.Clear(rid), Call.Settle(rid)]
    case Cleared => [Call.Settle(rid)]
    case _ => []
  }

  lemma SettleDrains(s: State, rid: nat)
    requires Inv(s) && rid in s.cells && s.cells[rid].round.status == Cleared
    ensures Spec.Settle(s, rid).Ok? && Drained(Spec.Settle(s, rid).value, rid)
  {
    SettleCannotFail(s, rid);
    SettledCellOk(s, s.cells[rid]);
    hide Spec.Settle, Inv, RoundInv;
  }

  lemma RefundDrains(s: State, rid: nat)
    requires Inv(s) && rid in s.cells && s.cells[rid].round.status in {Open, Revealing}
    ensures var c := s.cells[rid]; var t := Spec.RefundAll(s, rid, c.(round := c.round.(status := Voided)));
            t.Ok? && Drained(t.value, rid)
  {
    RefundCannotFail(s, rid);
    VoidedCellOk(s, s.cells[rid]);
    hide Spec.RefundAll, Inv, RoundInv;
  }

  lemma VoidDrains(s: State, rid: nat)
    requires Inv(s) && rid in s.cells && s.cells[rid].round.status == Open
    requires s.now > s.cells[rid].round.revealDeadline + VOID_GRACE
    ensures Spec.Void(s, rid).Ok? && Drained(Spec.Void(s, rid).value, rid)
  {
    hide Spec.RefundAll, Inv, Drained;
    RefundDrains(s, rid);
  }

  /** Past the reveal deadline `clear` always succeeds: it finds a winner or drains the round. */
  lemma ClearCannotFail(s: State, rid: nat)
    requires Inv(s) && rid in s.cells && s.cells[rid].round.status == Revealing
    requires s.now > s.cells[rid].round.revealDeadline
    ensures Spec.Clear(s, rid).Ok?
    ensures var c := s.cells[rid]; var t := Spec.Clear(s, rid).value.0;
            if Spec.BestBid(None, c.bids, c.round.rule, c.round.bidders).None? then Drained(t, rid)
            else rid in t.cells && t.cells[rid].round.status == Cleared
  {
    hide Spec.RefundAll, Inv, Drained;
    RefundDrains(s, rid);
  }

  lemma RunOne(s: State, c: Call)
    ensures Run(s, [c]) == Step(s, c)
  {
    assert [c][..0] == [];
  }

  lemma RunTwo(s: State, c: Call, d: Call)
    ensures Run(s, [c, d]) == Step(Step(s, c), d)
  {
    RunOne(s, c);
    assert [c, d][..1] == [c];
  }

  /**
   * No stranded escrow: whatever happened before, once the grace period after the reveal deadline
   * is over, at most two calls anybody can make finish the round with nothing locked.
   */
  lemma NoStrandedEscrow(s: State, rid: nat)
    requires Inv(s) && rid in s.cells && s.cells[rid].round.status in {Open, Revealing, Cleared}
    requires s.now > s.cells[rid].round.revealDeadline + VOID_GRACE
    ensures 1 <= |Rescue(s, rid)| <= 2
    ensures Drained(Run(s, Rescue(s, rid)), rid)
  {
    var status := s.cells[rid].round.status;
    hide Spec.Clear, Spec.Settle, Spec.Void, Step, Inv, RoundInv, Drained;
    if status == Open {
      VoidDrains(s, rid);
      StepVoid(s, rid);
      RunOne(s, Call.Void(rid));
    } else if status == Cleared {
      SettleDrains(s, rid);
      StepSettle(s, rid);
      RunOne(s, Call.Settle(rid));
    } else {
      ClearCannotFail(s, rid);
      StepClear(s, rid);
      RunOne(s, Call.Clear(rid));
      if |Rescue(s, rid)| == 2 {
        var t := Step(s, Call.Clear(rid));
        StepInv(s, Call.Clear(rid));
        SettleDrains(t, rid);
        StepSettle(t, rid);
        RunTwo(s, Call.Clear(rid), Call.Settle(rid));
      }
    }
  }

  lemma StepVoid(s: State, rid: nat)
    requires Spec.Void(s, rid).Ok?
    ensures Step(s, Call.Void(rid)) == Spec.Void(s, rid).value
  {
  }

  lemma StepClear(s: State, rid: nat)
    requires Spec.Clear(s, rid).Ok?
    ensures Step(s, Call.Clear(rid)) == Spec.Clear(s, rid).value.0
  {
  }

  lemma StepSettle(s: State, rid: nat)
    requires Spec.Settle(s, rid).Ok?
    ensures Step(s, Call.Settle(rid)) == Spec.Settle(s, rid).value
  {
  }

  lemma VoidAt(s: State, rid: nat, at: u64)
    requires Inv(s) && rid in s.cells && s.cells[rid].round.status == Open && at >= s.now
    ensures Spec.Void(s.(now := at), rid).Ok? <==> at > s.cells[rid].round.revealDeadline + VOID_GRACE
  {
    if at > s.cells[rid].round.revealDeadline + VOID_GRACE {
      HostInv(s, s.(now := at));
      VoidDrains(s.(now := at), rid);
      hide Inv, Drained;
    }
  }

  /**
   * A round that never opens can be voided at some later time exactly when its reveal deadline
   * leaves room for the grace period in a u64; `create_round` does not check that it does.
   */
  lemma OpenRoundVoidableIff(s: State, rid: nat)
    requires Inv(s) && rid in s.cells && s.cells[rid].round.status == Open
    ensures (exists at: u64 :: at >= s.now && Spec.Void(s.(now := at), rid).Ok?)
       <==> s.cells[rid].round.revealDeadline + VOID_GRACE < TWO_64 - 1
  {
    var latest: u64 := TWO_64 - 1;
    VoidAt(s, rid, latest);
    forall at: u64 | at >= s.now
      ensures Spec.Void(s.(now := at), rid).Ok? ==> latest > s.cells[rid].round.revealDeadline + VOID_GRACE
    {
      VoidAt(s, rid, at);
    }
  }

  lemma ClearAt(s: State, rid: nat, at: u64)
    requires Inv(s) && rid in s.cells && s.cells[rid].round.status == Revealing && at >= s.now
    ensures Spec.Clear(s.(now := at), rid).Ok? <==> at > s.cells[rid].round.revealDeadline
  {
    if at > s.cells[rid].round.revealDeadline {
      HostInv(s, s.(now := at));
      ClearCannotFail(s.(now := at), rid);
    }
    hide Inv, Drained, Spec.RefundAll, Spec.BestBid;
  }

  /** A revealing round can be cleared at some later time exactly when its deadline is not the last u64. */
  lemma RevealingRoundClearableIff(s: State, rid: nat)
    requires Inv(s) && rid in s.cells && s.cells[rid].round.status == Revealing
    ensures (exists at: u64 :: at >= s.now && Spec.Clear(s.(now := at), rid).Ok?)
       <==> s.cells[rid].round.revealDeadline < TWO_64 - 1
  {
    var latest: u64 := TWO_64 - 1;
    ClearAt(s, rid, latest);
    forall at: u64 | at >= s.now
      ensures Spec.Clear(s.(now := at), rid).Ok? ==> latest > s.cells[rid].round.revealDeadline
    {
      ClearAt(s, rid, at);
    }
    hide Inv, Spec.Clear;
  }

  /** Such a round exists: the contract accepts the largest reveal deadline a u64 can hold. */
  lemma UnvoidableRoundAccepted(s: State)
    requires s.config == Config(1000, 3) && s.now == 1000 && s.counter == 0
    ensures Spec.CreateRound(s, Account(1), 100, HighestBid, 1200, TWO_64 - 1, 0).Ok?
    ensures Spec.CreateRound(s, Account(1), 100, HighestBid, 1200, TWO_64 - 1, 0).value.0.cells[1].round.revealDeadline
            + VOID_GRACE >= TWO_64
  {
  }
}
