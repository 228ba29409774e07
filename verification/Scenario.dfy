/**
 * Rounds from deployment on, for every hash function: the states the other modules speak of are really reached,
 * and so are the ones in which a promise fails.
 */
module Scenario {
  import opened Prelude
  import opened RoundTypes
  import Spec = RoundSpec
  import opened RoundInvariant
  import opened Runs
  import Settlement
  import Lifecycle
  import Acceptance
  import Commitment
  import Binding
  import Interleaving
  import KeeperCursor
  import KeeperReveal
  import KeeperVoid
  import KeeperClose
  import Pager
  import Decimal
  import Events = ReceiptEvents
  import Checkpoint
  import Receipt

  const OPERATOR: Address := Account(1)
  const BIDDER: Address := Account(2)

  /** What a story leaves open: the hash function, the round's reveal deadline and the value the bid seals. */
  datatype Setting = Setting(sha: seq<byte> -> Bytes32, deadline: u64, value: i128)

  ghost function Zero(): Bytes32 {
    seq(32, _ => 0)
  }

  ghost function Sealed(g: Setting): Bytes32 {
    g.sha(Commitment.BidPreimage(g.value, Zero()))
  }

  ghost function Deployed(g: Setting): State {
    State(Config(1000, 3), g.sha, 1000, 0, map[], map[BIDDER := 50], 0, [])
  }

  ghost function Creation(g: Setting): Call {
    CreateRound(OPERATOR, 100, HighestBid, 1200, g.deadline, 0)
  }

  ghost function Bidding(g: Setting): Call {
    Call.Commit(1, BIDDER, Sealed(g), 10, 20, 10, 100)
  }

  ghost function TheRound(g: Setting): Round {
    Round(OPERATOR, 100, HighestBid, 1200, g.deadline, Open, [], None, 0)
  }

  ghost function TheBid(g: Setting): BidState {
    BidState(Sealed(g), 20, None, None, false, false)
  }

  ghost function ShownBid(g: Setting): BidState {
    TheBid(g).(revealedValue := Some(g.value), revealedNonce := Some(Zero()), valid := true)
  }

  // ---- Deployment, creation, one commit ---------------------------------------------------------

  ghost function Created(g: Setting): State {
    Deployed(g).(counter := 1, cells := map[1 := Cell(TheRound(g), map[], None)])
  }

  ghost function CommittedCell(g: Setting): Cell {
    Cell(TheRound(g).(bidders := [BIDDER]), map[BIDDER := TheBid(g)], Some(EscrowLedger(20, 0, 0, 20)))
  }

  ghost function Committed(g: Setting): State {
    Deployed(g).(counter := 1, cells := map[1 := CommittedCell(g)], balances := map[BIDDER := 30, SELF := 20],
                 log := [Transfer(1, BIDDER, SELF, 20)])
  }

  lemma DeployedIsSound(g: Setting)
    ensures Genesis(Deployed(g)) && Inv(Deployed(g))
  {
  }

  lemma CreationIsAccepted(g: Setting)
    requires g.deadline > 1300
    ensures Step(Deployed(g), Creation(g)) == Created(g)
  {
  }

  lemma EscrowTaken()
    ensures Spec.SwapEscrow(Spec.Purse(map[], EscrowLedger(0, 0, 0, 0), map[BIDDER := 50], []), 1, BIDDER, 20)
         == Ok(Spec.Purse(map[], EscrowLedger(20, 0, 0, 20), map[BIDDER := 30, SELF := 20],
             [Transfer(1, BIDDER, SELF, 20)]))
  {
    var before: map<Address, nat> := map[BIDDER := 50];
    assert before[BIDDER := 30][SELF := 20] == map[BIDDER := 30, SELF := 20];
    assert [] + [Transfer(1, BIDDER, SELF, 20)] == [Transfer(1, BIDDER, SELF, 20)];
  }

  lemma BiddingIsAccepted(g: Setting)
    requires g.deadline > 1300
    ensures Step(Created(g), Bidding(g)) == Committed(g)
  {
    var s := Created(g);
    EscrowTaken();
    assert Spec.EnsureLedger(s.cells[1]) == Ok(EscrowLedger(0, 0, 0, 0));
    hide Spec.SwapEscrow, Spec.EnsureLedger;
    var t := Spec.AcceptBid(s, 1, s.cells[1], BIDDER, Sealed(g), 20).value;
    assert t.cells[1].bids == map[BIDDER := TheBid(g)] && t.cells[1].round.bidders == [BIDDER];
    assert t.cells == Committed(g).cells;
    assert Attempt(s, Bidding(g)) == Spec.AcceptBid(s, 1, s.cells[1], BIDDER, Sealed(g), 20);
  }

  lemma OneMore(s: State, calls: seq<Call>, c: Call)
    ensures Run(s, calls + [c]) == Step(Run(s, calls), c)
  {
    RunConcat(s, calls, [c]);
    Lifecycle.RunOne(Run(s, calls), c);
  }

  lemma CommittedIsReached(g: Setting)
    requires g.deadline > 1300
    ensures Run(Deployed(g), [Creation(g), Bidding(g)]) == Committed(g)
    ensures Inv(Committed(g)) && Interleaving.Live(Committed(g), 1)
  {
    DeployedIsSound(g);
    hide Inv, Step, Interleaving.Live;
    Lifecycle.RunTwo(Deployed(g), Creation(g), Bidding(g));
    CreationIsAccepted(g);
    BiddingIsAccepted(g);
    RunInv(Deployed(g), [Creation(g), Bidding(g)]);
    CommittedIsLive(g);
  }

  lemma CommittedIsLive(g: Setting)
    ensures Interleaving.Live(Committed(g), 1)
  {
  }

  /** The bidder thinks again: a second commit returns the 20, takes 30, and replaces the sealed bid. */
  lemma OverwriteIsReached(g: Setting, second: Bytes32)
    requires g.deadline > 1300
    ensures var t := Run(Deployed(g), [Creation(g), Bidding(g)] + [Call.Commit(1, BIDDER, second, 10, 30, 10, 100)]);
            && Inv(t) && 1 in t.cells && t.cells[1].round.bidders == [BIDDER]
            && t.cells[1].bids == map[BIDDER := BidState(second, 30, None, None, false, false)]
            && t.cells[1].ledger == Some(EscrowLedger(50, 0, 20, 30))
            && Spec.Balance(t.balances, BIDDER) == 20 && Spec.Balance(t.balances, SELF) == 30
  {
    CommittedIsReached(g);
    var s, c := Committed(g), CommittedCell(g);
    assert PrevEscrow(c.bids, BIDDER) == 20;
    Acceptance.CommitAcceptsIff(s, 1, BIDDER, second, 10, 30, 10, 100);
    assert LiveLedger(c) == EscrowLedger(20, 0, 0, 20);
    assert Acceptance.Admissible(s, 1, BIDDER, 10, 30, 10, 100) && Acceptance.Payable(s, 1, BIDDER, 30);
    hide Inv, RoundInv, Run, Step, Spec.Commit, LedgerOk, LiveLedger;
    CommitEffect(s, 1, BIDDER, second, 10, 30, 10, 100);
    OneMore(Deployed(g), [Creation(g), Bidding(g)], Call.Commit(1, BIDDER, second, 10, 30, 10, 100));
    StepCommit(s, Call.Commit(1, BIDDER, second, 10, 30, 10, 100));
    DeployedIsSound(g);
    RunInv(Deployed(g), [Creation(g), Bidding(g)] + [Call.Commit(1, BIDDER, second, 10, 30, 10, 100)]);
    var t := Spec.Commit(s, 1, BIDDER, second, 10, 30, 10, 100).value;
    assert c.bids[BIDDER := BidState(second, 30, None, None, false, false)]
        == map[BIDDER := BidState(second, 30, None, None, false, false)];
  }

  lemma StepCommit(s: State, c: Call)
    requires c.Commit?
    ensures var r := Spec.Commit(s, c.rid, c.bidder, c.commitment, c.ciphertextLen, c.escrow, c.blobLen, c.sealRound);
            r.Ok? ==> Step(s, c) == r.value
  {
  }

  // ---- The reveal window ---------------------------------------------------------------------------

  ghost function WindowOpen(g: Setting): State {
    Committed(g).(now := 1400,
        cells := map[1 := CommittedCell(g).(round := CommittedCell(g).round.(status := Revealing))])
  }

  lemma WaitAndOpen(g: Setting)
    ensures Step(Step(Committed(g), Tick(1400)), OpenReveal(1, true)) == WindowOpen(g)
  {
  }

  ghost function Opening(g: Setting): seq<Call> {
    [Creation(g), Bidding(g)] + [Tick(1400), OpenReveal(1, true)]
  }

  lemma WindowIsReached(g: Setting)
    requires g.deadline > 1300
    ensures Run(Deployed(g), Opening(g)) == WindowOpen(g)
    ensures Inv(WindowOpen(g)) && Interleaving.Live(WindowOpen(g), 1)
  {
    CommittedIsReached(g);
    DeployedIsSound(g);
    hide Inv, Step, Run;
    RunConcat(Deployed(g), [Creation(g), Bidding(g)], [Tick(1400), OpenReveal(1, true)]);
    Lifecycle.RunTwo(Committed(g), Tick(1400), OpenReveal(1, true));
    WaitAndOpen(g);
    RunInv(Deployed(g), Opening(g));
  }

  // ---- A bid within its escrow is revealed and wins ------------------------------------------------

  ghost function Revealed(g: Setting): State {
    WindowOpen(g).(cells := map[1 := WindowOpen(g).cells[1].(bids := map[BIDDER := ShownBid(g)])])
  }

  lemma ScanOne(g: Setting, bids: map<Address, BidState>)
    requires BIDDER in bids && bids[BIDDER] == TheBid(g)
    ensures Spec.Scan(EscrowIndex(0, 0), bids, [BIDDER]) == Ok(EscrowIndex(20, 0))
  {
    assert [BIDDER][1..] == [];
    assert Spec.Scan(EscrowIndex(20, 0), bids, []) == Ok(EscrowIndex(20, 0));
  }

  lemma RevealTheBid(g: Setting)
    requires 0 < g.value <= 20 && 1400 <= g.deadline
    ensures Step(WindowOpen(g), Call.Reveal(1, BIDDER, g.value, Zero())) == Revealed(g)
  {
    var c := WindowOpen(g).cells[1];
    ScanOne(g, c.bids);
    hide Spec.Scan;
    assert Spec.ProveConserved(c, EscrowLedger(20, 0, 0, 20)) == Ok(EscrowIndex(20, 0));
    hide Spec.ProveConserved, Commitment.BidPreimage;
    var t := Spec.Reveal(WindowOpen(g), 1, BIDDER, g.value, Zero()).value;
    assert t.cells[1].bids == map[BIDDER := ShownBid(g)];
    assert t.cells == Revealed(g).cells;
  }

  ghost function Cleared(g: Setting): State
    requires g.deadline < TWO_64 - 1
  {
    var c := Revealed(g).cells[1];
    var round := c.round.(status := Status.Cleared, winner := Some(BIDDER), winningBid := g.value);
    Revealed(g).(now := g.deadline + 1, cells := map[1 := c.(round := round)])
  }

  lemma BestOfOne(g: Setting, bids: map<Address, BidState>)
    requires BIDDER in bids && bids[BIDDER] == ShownBid(g)
    ensures Spec.BestBid(None, bids, HighestBid, [BIDDER]) == Some((BIDDER, g.value))
  {
    assert [BIDDER][1..] == [];
    assert Spec.ClearStep(None, bids, HighestBid, BIDDER) == Some((BIDDER, g.value));
  }

  lemma WaitAndClear(g: Setting)
    requires 1400 <= g.deadline < TWO_64 - 1
    ensures Step(Step(Revealed(g), Tick(g.deadline + 1)), Call.Clear(1)) == Cleared(g)
  {
    var s := Step(Revealed(g), Tick(g.deadline + 1));
    assert s == Revealed(g).(now := g.deadline + 1);
    BestOfOne(g, s.cells[1].bids);
    hide Spec.BestBid;
    var t := Spec.Clear(s, 1).value.0;
    assert t.cells == Cleared(g).cells;
  }

  ghost function Auction(g: Setting): seq<Call>
    requires g.deadline < TWO_64 - 1
  {
    Opening(g) + [Call.Reveal(1, BIDDER, g.value, Zero())] + [Tick(g.deadline + 1), Call.Clear(1)]
  }

  lemma ClearedIsReached(g: Setting)
    requires 0 < g.value <= 20 && 1400 <= g.deadline < TWO_64 - 1
    ensures Run(Deployed(g), Auction(g)) == Cleared(g)
  {
    hide Inv, Step, Run;
    WindowIsReached(g);
    var revealed := Opening(g) + [Call.Reveal(1, BIDDER, g.value, Zero())];
    OneMore(Deployed(g), Opening(g), Call.Reveal(1, BIDDER, g.value, Zero()));
    RevealTheBid(g);
    RunConcat(Deployed(g), revealed, [Tick(g.deadline + 1), Call.Clear(1)]);
    Lifecycle.RunTwo(Revealed(g), Tick(g.deadline + 1), Call.Clear(1));
    WaitAndClear(g);
  }

  lemma ClearedStatus(g: Setting)
    requires g.deadline < TWO_64 - 1
    ensures 1 in Cleared(g).cells && Cleared(g).cells[1].round.status == Status.Cleared
  {
  }

  /** Whatever the hash, a sound Cleared state is reached by a run, and one more call settles it with nothing locked. */
  lemma AuctionRunsToItsEnd(g: Setting)
    requires 0 < g.value <= 20 && 1400 <= g.deadline < TWO_64 - 1
    ensures Genesis(Deployed(g)) && Inv(Deployed(g))
    ensures var s := Run(Deployed(g), Auction(g)); Inv(s) && 1 in s.cells && s.cells[1].round.status == Status.Cleared
    ensures var s := Run(Deployed(g), Auction(g) + [Call.Settle(1)]); Inv(s) && Lifecycle.Drained(s, 1)
  {
    DeployedIsSound(g);
    hide Inv, Step, Run, Lifecycle.Drained, Spec.Settle, Spec.Balance, Auction, Deployed, Genesis;
    ClearedIsReached(g);
    RunInv(Deployed(g), Auction(g));
    RunInv(Deployed(g), Auction(g) + [Call.Settle(1)]);
    OneMore(Deployed(g), Auction(g), Call.Settle(1));
    ClearedStatus(g);
    hide Cleared;
    Lifecycle.SettleDrains(Cleared(g), 1);
    Lifecycle.StepSettle(Cleared(g), 1);
  }

  /** For every hash function the strings offered in the auction are free of collisions: there is only one. */
  lemma AuctionIsCollisionFree(g: Setting)
    requires g.deadline < TWO_64 - 1
    ensures var p := Commitment.BidPreimage(g.value, Zero());
            Binding.Offered(Auction(g)) == {p} && Binding.CollisionFreeOn(g.sha, Binding.Offered(Auction(g)) + {p})
  {
    hide Commitment.BidPreimage;
    var p := Commitment.BidPreimage(g.value, Zero());
    var shown := Call.Reveal(1, BIDDER, g.value, Zero());
    assert shown in [shown] && shown in Auction(g);
    assert forall c :: c in Auction(g) && c.Reveal? ==> c == shown;
    assert Binding.Offered(Auction(g)) == {p};
  }

  // ---- A bid above its escrow ------------------------------------------------------------------------

  /**
   * A bid may seal more than its escrow: `commit` cannot see it. Its seal opens to what was committed, the
   * contract refuses to reveal it, and a keeper that holds the seal meets it on every pass.
   */
  lemma OverbidIsReached(g: Setting, seals: Address -> KeeperReveal.SealRead)
    requires g.value > 20 && 1400 <= g.deadline
    requires seals(BIDDER) == KeeperReveal.Opened(g.value, Zero())
    ensures var s := Run(Deployed(g), Opening(g));
            && Inv(s) && Interleaving.Live(s, 1) && s.now <= s.cells[1].round.revealDeadline
            && Spec.Reveal(s, 1, BIDDER, g.value, Zero()) == Err(BidExceedsEscrow)
            && KeeperReveal.SomeOverbid(s, 1, s.cells[1].round.bidders, seals)
  {
    WindowIsReached(g);
    hide Inv, Run, Interleaving.Live;
    var s := WindowOpen(g);
    OverbidIsRefused(g);
    assert KeeperReveal.Overbid(s, 1, BIDDER, seals(BIDDER));
    assert BIDDER in s.cells[1].round.bidders;
  }

  lemma OverbidIsRefused(g: Setting)
    requires g.value > 20 && 1400 <= g.deadline
    ensures Spec.Reveal(WindowOpen(g), 1, BIDDER, g.value, Zero()) == Err(BidExceedsEscrow)
  {
    var c := WindowOpen(g).cells[1];
    ScanOne(g, c.bids);
    hide Spec.Scan;
    assert Spec.ProveConserved(c, EscrowLedger(20, 0, 0, 20)) == Ok(EscrowIndex(20, 0));
    hide Spec.ProveConserved, Commitment.BidPreimage;
  }

  // ---- A round with the last deadline a u64 can hold --------------------------------------------------

  /**
   * `create_round` takes the last u64 as a reveal deadline. The round takes escrow, opens its window, and from
   * then on no run whatsoever clears, settles or voids it.
   */
  lemma StuckRoundIsReached(g: Setting)
    requires g.deadline == TWO_64 - 1
    ensures var s := Run(Deployed(g), Opening(g));
            && Inv(s) && 1 in s.cells && s.cells[1].round.status == Revealing
            && s.cells[1].ledger == Some(EscrowLedger(20, 0, 0, 20))
            && forall t :: Interleaving.Follows(s, t) ==> Interleaving.Live(t, 1)
  {
    WindowIsReached(g);
    hide Inv, Run, Interleaving.Live, Interleaving.Follows;
    Interleaving.LiveRoundFinishableIff(WindowOpen(g), 1);
  }

  // ---- A round the chain voids -------------------------------------------------------------------------

  ghost function Stale(g: Setting): seq<Call>
    requires g.deadline + VOID_GRACE + 1 < TWO_64
  {
    [Creation(g), Bidding(g)] + [Tick(g.deadline + VOID_GRACE + 1), Call.Void(1)]
  }

  lemma VoidIsAccepted(g: Setting)
    requires 1300 < g.deadline < TWO_64 - VOID_GRACE - 1
    requires Inv(Committed(g).(now := g.deadline + VOID_GRACE + 1))
    ensures var t := Step(Step(Committed(g), Tick(g.deadline + VOID_GRACE + 1)), Call.Void(1));
            Lifecycle.Drained(t, 1) && 1 in t.cells && t.cells[1].round.status == Voided
  {
    var s := Committed(g).(now := g.deadline + VOID_GRACE + 1);
    assert Step(Committed(g), Tick(g.deadline + VOID_GRACE + 1)) == s;
    assert 1 in s.cells && s.cells[1].round.status == Open && s.cells[1].round.revealDeadline == g.deadline;
    hide Inv, Lifecycle.Drained;
    Lifecycle.VoidDrains(s, 1);
    Settlement.RefundCannotFail(s, 1);
    Lifecycle.StepVoid(s, 1);
    hide Spec.RefundAll, Settlement.VoidedCell;
  }

  lemma VoidedIsReached(g: Setting)
    requires 1300 < g.deadline < TWO_64 - VOID_GRACE - 1
    ensures var s := Run(Deployed(g), Stale(g));
            Inv(s) && s.sha == g.sha && Lifecycle.Drained(s, 1) && 1 in s.cells && s.cells[1].round.status == Voided
  {
    CommittedIsReached(g);
    DeployedIsSound(g);
    hide Inv, Run, Step, Lifecycle.Drained;
    Interleaving.TickTo(Committed(g), g.deadline + VOID_GRACE + 1);
    RunConcat(Deployed(g), [Creation(g), Bidding(g)], [Tick(g.deadline + VOID_GRACE + 1), Call.Void(1)]);
    Lifecycle.RunTwo(Committed(g), Tick(g.deadline + VOID_GRACE + 1), Call.Void(1));
    VoidIsAccepted(g);
    Interleaving.RunFacts(Deployed(g), Stale(g));
  }

  // ---- Passes that others overtake ---------------------------------------------------------------------

  /** A round that never opened, past its grace period. */
  ghost function Overdue(g: Setting): State
    requires g.deadline + VOID_GRACE + 1 < TWO_64
  {
    Committed(g).(now := g.deadline + VOID_GRACE + 1)
  }

  ghost function Waiting(g: Setting): seq<Call>
    requires g.deadline + VOID_GRACE + 1 < TWO_64
  {
    [Creation(g), Bidding(g)] + [Tick(g.deadline + VOID_GRACE + 1)]
  }

  lemma OverdueIsReached(g: Setting)
    requires 1300 < g.deadline < TWO_64 - VOID_GRACE - 1
    ensures Run(Deployed(g), Waiting(g)) == Overdue(g) && Inv(Overdue(g))
    ensures 1 in Overdue(g).cells && KeeperVoid.VoidGate(Overdue(g).cells[1].round, g.deadline + VOID_GRACE + 1)
  {
    CommittedIsReached(g);
    hide Inv, Run, Step;
    OneMore(Deployed(g), [Creation(g), Bidding(g)], Tick(g.deadline + VOID_GRACE + 1));
    Interleaving.TickTo(Committed(g), g.deadline + VOID_GRACE + 1);
  }

  /** Others void the overdue round first: the pass reads it as due, and its own `void` is refused. */
  lemma VoidRaceIsReached(g: Setting)
    requires 1300 < g.deadline < TWO_64 - VOID_GRACE - 1
    ensures var m := Run(Deployed(g), Waiting(g)); var b := Run(m, [Call.Void(1)]);
            && Inv(m) && 1 in m.cells && Spec.Void(b, 1) == Err(RoundVoided)
            && KeeperVoid.VoidThrows(m, b, 1, g.deadline + VOID_GRACE + 1)
  {
    OverdueIsReached(g);
    VoidIsAccepted(g);
    Lifecycle.RunOne(Overdue(g), Call.Void(1));
    hide Inv, Run, Lifecycle.Drained, Overdue;
    assert Step(Committed(g), Tick(g.deadline + VOID_GRACE + 1)) == Overdue(g) by {
      Interleaving.TickTo(Committed(g), g.deadline + VOID_GRACE + 1);
      OverdueIs(g);
    }
    hide Step;
    VoidedRefusesVoid(Run(Overdue(g), [Call.Void(1)]));
  }

  lemma OverdueIs(g: Setting)
    requires g.deadline + VOID_GRACE + 1 < TWO_64
    ensures Overdue(g) == Committed(g).(now := g.deadline + VOID_GRACE + 1)
  {
  }

  lemma VoidedRefusesVoid(s: State)
    requires 1 in s.cells && s.cells[1].round.status == Voided
    ensures Spec.Void(s, 1) == Err(RoundVoided) && KeeperVoid.VoidFails(s, 1)
  {
  }

  /** The pass itself on that schedule: it throws. */
  method VoidRaceThrows(g: Setting, overdue: State, token: Pager.Tokens)
    returns (r: Result<KeeperVoid.VoidResult, Interleaving.Fault>)
    requires 1300 < g.deadline < TWO_64 - VOID_GRACE - 1 && overdue == Run(Deployed(g), Waiting(g))
    ensures r.Err?
  {
    VoidRaceIsReached(g);
    hide Inv, Run, Waiting, Deployed, Spec.Void, KeeperVoid.VoidThrows, KeeperVoid.Stale;
    hide KeeperCursor.Grows, KeeperCursor.StoreTrue, Interleaving.OthersMoved;
    var turns := (k: nat) => Interleaving.Turn(if k == 1 then [Call.Void(1)] else [], false);
    var chain := new Interleaving.Chain(overdue, turns, token);
    NothingRuns(overdue);
    r := KeeperVoid.VoidIfStale(chain, null, 1, g.deadline + VOID_GRACE + 1, "");
  }

  /** The same race lost by `keepRound`: it reads the overdue round as Open, and its `open_reveal` is refused. */
  lemma KeepRaceIsReached(g: Setting)
    requires 1300 < g.deadline < TWO_64 - VOID_GRACE - 1
    ensures var m := Run(Deployed(g), Waiting(g)); var b := Run(m, [Call.Void(1)]);
            && Inv(m) && 1 in m.cells && Spec.OpenReveal(b, 1, true) == Err(RoundVoided)
            && KeeperReveal.OpeningThrows(m, b, 1, KeeperReveal.Served(true))
  {
    OverdueIsReached(g);
    VoidRaceIsReached(g);
    hide Inv, Run, Waiting, Deployed, Overdue;
    var m := Run(Deployed(g), Waiting(g));
    VoidedRefusesOpening(m, Run(m, [Call.Void(1)]), g.deadline + VOID_GRACE + 1);
  }

  lemma VoidedRefusesOpening(m: State, b: State, nowSeconds: nat)
    requires KeeperVoid.VoidThrows(m, b, 1, nowSeconds) && Spec.Void(b, 1) == Err(RoundVoided)
    ensures Spec.OpenReveal(b, 1, true) == Err(RoundVoided)
    ensures KeeperReveal.OpeningThrows(m, b, 1, KeeperReveal.Served(true))
  {
    hide Spec.RefundAll;
  }

  /** The pass itself on that schedule: it throws. */
  method KeepRaceThrows(g: Setting, overdue: State, token: Pager.Tokens)
    returns (r: Result<KeeperReveal.KeeperResult, Interleaving.Fault>)
    requires 1300 < g.deadline < TWO_64 - VOID_GRACE - 1 && overdue == Run(Deployed(g), Waiting(g))
    ensures r.Err?
  {
    KeepRaceIsReached(g);
    hide Inv, Run, Waiting, Deployed, Spec.OpenReveal, KeeperReveal.OpeningThrows, KeeperReveal.KeepThrows;
    hide KeeperCursor.Grows, KeeperCursor.StoreTrue, Interleaving.Kept, KeeperReveal.InTime;
    var turns := (k: nat) => Interleaving.Turn(if k == 1 then [Call.Void(1)] else [], false);
    var chain := new Interleaving.Chain(overdue, turns, token);
    NothingRuns(overdue);
    r := KeeperReveal.KeepRound(chain, null, 1, KeeperReveal.Served(true), _ => KeeperReveal.Absent, "");
  }

  lemma NothingRuns(s: State)
    ensures Run(s, []) == s
  {
  }

  /** The auction, its reveal window over, not yet cleared. */
  ghost function Unclosed(g: Setting): seq<Call>
    requires g.deadline < TWO_64 - 1
  {
    Opening(g) + [Call.Reveal(1, BIDDER, g.value, Zero())] + [Tick(g.deadline + 1)]
  }

  lemma UnclosedIsReached(g: Setting)
    requires 0 < g.value <= 20 && 1400 <= g.deadline < TWO_64 - 1
    ensures var m := Run(Deployed(g), Unclosed(g));
            && m == Revealed(g).(now := g.deadline + 1) && Inv(m)
            && Interleaving.HasStatus(m, 1, {Revealing}) && m.cells[1].round.revealDeadline == g.deadline
  {
    WindowIsReached(g);
    DeployedIsSound(g);
    hide Inv, Run, Step;
    OneMore(Deployed(g), Opening(g), Call.Reveal(1, BIDDER, g.value, Zero()));
    RevealTheBid(g);
    OneMore(Deployed(g), Opening(g) + [Call.Reveal(1, BIDDER, g.value, Zero())], Tick(g.deadline + 1));
    RevealedLater(g);
    RunInv(Deployed(g), Unclosed(g));
  }

  lemma RevealedLater(g: Setting)
    requires 1400 <= g.deadline < TWO_64 - 1
    ensures Step(Revealed(g), Tick(g.deadline + 1)) == Revealed(g).(now := g.deadline + 1)
  {
  }

  /** Others clear and settle the auction first: the pass reads it as due, and its own `clear` is refused. */
  lemma CloseRaceIsReached(g: Setting)
    requires 0 < g.value <= 20 && 1400 <= g.deadline < TWO_64 - 1
    ensures var m := Run(Deployed(g), Unclosed(g)); var b := Run(m, [Call.Clear(1), Call.Settle(1)]);
            && Inv(m) && 1 in m.cells && Spec.Clear(b, 1) == Err(AlreadySettled)
            && KeeperClose.CloseThrows(m, b, 1, g.deadline + 1)
  {
    UnclosedIsReached(g);
    hide Inv, Run, Step, Revealed, Lifecycle.Drained;
    var m := Run(Deployed(g), Unclosed(g));
    Lifecycle.RunTwo(m, Call.Clear(1), Call.Settle(1));
    RevealedLater(g);
    WaitAndClear(g);
    ClearedIsSound(g);
    SettledAfter(Cleared(g));
    SettledRefusesClear(Step(Cleared(g), Call.Settle(1)));
  }

  lemma ClearedIsSound(g: Setting)
    requires 0 < g.value <= 20 && 1400 <= g.deadline < TWO_64 - 1
    ensures Inv(Cleared(g)) && 1 in Cleared(g).cells && Cleared(g).cells[1].round.status == Status.Cleared
  {
    ClearedIsReached(g);
    DeployedIsSound(g);
    RunInv(Deployed(g), Auction(g));
    hide Inv, Run, Auction, Deployed;
  }

  lemma SettledAfter(s: State)
    requires Inv(s) && 1 in s.cells && s.cells[1].round.status == Status.Cleared
    ensures Interleaving.HasStatus(Step(s, Call.Settle(1)), 1, {Settled})
  {
    Settlement.SettleCannotFail(s, 1);
    hide Inv, Spec.Settle;
    Lifecycle.StepSettle(s, 1);
  }

  lemma SettledRefusesClear(s: State)
    requires Interleaving.HasStatus(s, 1, {Settled})
    ensures Spec.Clear(s, 1) == Err(AlreadySettled)
  {
  }

  /** The pass itself on that schedule: it throws. */
  method CloseRaceThrows(g: Setting, unclosed: State, token: Pager.Tokens)
    returns (r: Result<KeeperClose.CloseResult, Interleaving.Fault>)
    requires 0 < g.value <= 20 && 1400 <= g.deadline < TWO_64 - 1 && unclosed == Run(Deployed(g), Unclosed(g))
    ensures r.Err?
  {
    CloseRaceIsReached(g);
    hide Inv, Run, Unclosed, Deployed, Revealed, Spec.Clear, KeeperClose.CloseThrows, KeeperClose.Closable;
    hide KeeperClose.CloseReport, Interleaving.HasStatus, Interleaving.OthersMoved;
    hide KeeperCursor.Recorded, KeeperCursor.Grows, KeeperCursor.StoreTrue;
    hide KeeperClose.SkipsSay, KeeperClose.CloseCalls, Interleaving.Follows;
    var turns := (k: nat) => Interleaving.Turn(if k == 1 then [Call.Clear(1), Call.Settle(1)] else [], false);
    var chain := new Interleaving.Chain(unclosed, turns, token);
    NothingRuns(unclosed);
    assert chain.First() == unclosed && chain.Second() == Run(unclosed, [Call.Clear(1), Call.Settle(1)]);
    assert chain.AlwaysUp() && !KeeperCursor.StepAlreadyDone(null, 1, Checkpoint.Clear);
    hide KeeperCursor.StepAlreadyDone, KeeperCursor.FileOf;
    r := KeeperClose.CloseRound(chain, null, 1, g.deadline + 1, "");
  }

  // ---- Receipts of those rounds --------------------------------------------------------------------------

  /** A host whose `BigInt` reads decimal text. */
  ghost function Reader(sha: seq<byte> -> Bytes32): Receipt.Host {
    Receipt.Host(t => Decimal.Parse(t), _ => "", sha)
  }

  lemma ReaderReads(sha: seq<byte> -> Bytes32)
    ensures Receipt.ReadsDecimals(Reader(sha))
  {
    forall v: int
      ensures Reader(sha).bigInt(Decimal.Text(v)) == Some(v)
    {
      Decimal.ParseText(v);
    }
    hide Decimal.Text, Decimal.Parse;
  }

  /** Whoever exports it, and whatever seals are stored, no receipt of the voided round verifies. */
  lemma VoidedReceiptFails(g: Setting, client: Receipt.Client, seals: Address -> Option<Receipt.Seal>)
    requires 1300 < g.deadline < TWO_64 - VOID_GRACE - 1
    ensures var s := Run(Deployed(g), Stale(g)); var h := Reader(g.sha);
            && 1 in s.cells && (forall b :: b in s.cells[1].round.bidders ==> b in s.cells[1].bids)
            && !Receipt.Valid(h, Receipt.Exported(h, client, s.cells[1], 1, seals), Events.Expectation(None, None))
  {
    VoidedIsReached(g);
    ReaderReads(g.sha);
    var s := Run(Deployed(g), Stale(g));
    hide Inv, Run, Lifecycle.Drained, Receipt.ReadsDecimals, Receipt.Valid, Receipt.Throws, Receipt.Exported;
    Receipt.ExportVerifiesIff(Reader(g.sha), client, s, 1, seals, Events.Expectation(None, None));
  }

  lemma ClearedFacts(g: Setting)
    requires g.deadline < TWO_64 - 1
    ensures var s := Cleared(g);
            && 1 in s.cells && s.cells[1].round.bidders == [BIDDER] && s.cells[1].round.status == Status.Cleared
            && s.sha == g.sha
  {
  }

  /** The receipt of the Cleared auction verifies unless the client is nameless or the stored seal has an empty part. */
  lemma ClearedReceiptVerifiesIff(g: Setting, client: Receipt.Client, seals: Address -> Option<Receipt.Seal>)
    requires 0 < g.value <= 20 && 1400 <= g.deadline < TWO_64 - 1
    ensures var s := Run(Deployed(g), Auction(g)); var h := Reader(g.sha);
            && 1 in s.cells && (forall b :: b in s.cells[1].round.bidders ==> b in s.cells[1].bids)
            && (Receipt.Valid(h, Receipt.Exported(h, client, s.cells[1], 1, seals), Events.Expectation(None, None)) <==>
                && client.network != "" && "C" <= client.contractId
                && Receipt.SealExportable(seals(BIDDER)))
  {
    hide Inv, Run, Lifecycle.Drained, Receipt.ReadsDecimals, Receipt.Valid, Receipt.Throws, Receipt.Exported;
    hide Cleared, Deployed, Auction, Genesis, Receipt.SealExportable, Reader, Spec.Balance;
    AuctionRunsToItsEnd(g);
    ClearedIsReached(g);
    ReaderReads(g.sha);
    ReaderHash(g.sha);
    ClearedFacts(g);
    var s := Cleared(g);
    Receipt.ExportVerifiesIff(Reader(g.sha), client, s, 1, seals, Events.Expectation(None, None));
    assert forall b :: b in s.cells[1].round.bidders <==> b == BIDDER;
  }

  lemma ReaderHash(sha: seq<byte> -> Bytes32)
    ensures Reader(sha).sha == sha
  {
  }
}
