/** The off-chain walk against a hostile source, against a faithful one, and against `settle`. */
module ConservationProofs {
  import opened Prelude
  import opened RoundTypes
  import Spec = RoundSpec
  import opened RoundInvariant
  import opened Payout
  import opened Settlement
  import opened Conservation
  import Guard

  // ---- Sets and sequences -------------------------------------------------------------

  lemma {:induction false} NoDupCardinality(s: seq<Address>)
    requires NoDup(s)
    ensures |ToSet(s)| == |s|
  {
    if s == [] {
      assert ToSet(s) == {};
    } else {
      var front, last := s[..|s| - 1], s[|s| - 1];
      NoDupCardinality(front);
      assert ToSet(s) == ToSet(front) + {last};
      assert last !in front;
    }
  }

  lemma SameSizeSubset(s: seq<Address>, t: seq<Address>)
    requires NoDup(s) && NoDup(t) && |s| == |t| && forall a :: a in s ==> a in t
    ensures ToSet(s) == ToSet(t)
  {
    NoDupCardinality(s);
    NoDupCardinality(t);
    assert ToSet(s) <= ToSet(t);
    var extra := ToSet(t) - ToSet(s);
    assert ToSet(t) == ToSet(s) + extra;
    assert |extra| == 0;
  }

  lemma {:induction false} NothingMissing(expected: seq<Address>, seen: seq<Address>)
    requires MissingIssues(expected, seen) == []
    ensures forall a :: a in expected ==> a in seen
  {
    if expected != [] {
      NothingMissing(expected[..|expected| - 1], seen);
      assert forall a :: a in expected ==> a in expected[..|expected| - 1] || a == expected[|expected| - 1];
    }
  }

  // ---- A hostile source ---------------------------------------------------------------

  ghost predicate Sound(answer: Option<BidState>) {
    answer.Some? && answer.value.escrow >= 0 && !answer.value.settled
  }

  ghost function SumOf(answers: seq<Option<BidState>>): int
    requires forall i :: 0 <= i < |answers| ==> answers[i].Some?
  {
    if answers == [] then 0 else SumOf(answers[..|answers| - 1]) + answers[|answers| - 1].value.escrow
  }

  /** What a tally without issues is known to have seen. */
  ghost predicate Clean(t: Tally) {
    && NoDup(t.listed) && t.seen == t.listed && |t.answers| == |t.listed|
    && (forall i :: 0 <= i < |t.answers| ==> Sound(t.answers[i]))
    && t.escrowHeld == SumOf(t.answers)
    && t.escrowHeld == t.refundable + t.winnerEscrow
    && t.refundable >= 0 && t.winnerEscrow >= 0
  }

  ghost predicate CleanUnlessFlagged(t: Tally) {
    t.issues == [] ==> Clean(t)
  }

  lemma TallyBidderClean(src: Source, winner: Option<Address>, t: Tally, b: Address)
    requires CleanUnlessFlagged(t)
    ensures CleanUnlessFlagged(TallyBidder(src, winner, t, b))
    ensures TallyBidder(src, winner, t, b).issues == [] ==> t.issues == []
    ensures TallyBidder(src, winner, t, b).listed == t.listed + [b]
  {
    var u := TallyBidder(src, winner, t, b);
    if u.issues == [] {
      assert u.answers[..|u.answers| - 1] == t.answers;
    }
  }

  lemma {:induction false} TallyPageClean(src: Source, winner: Option<Address>, t: Tally, data: seq<Address>)
    requires CleanUnlessFlagged(t)
    ensures CleanUnlessFlagged(TallyPage(src, winner, t, data))
    ensures TallyPage(src, winner, t, data).issues == [] ==> t.issues == []
    ensures TallyPage(src, winner, t, data).listed == t.listed + data
    decreases |data|
  {
    if data != [] {
      TallyBidderClean(src, winner, t, data[0]);
      TallyPageClean(src, winner, TallyBidder(src, winner, t, data[0]), data[1..]);
      assert data == [data[0]] + data[1..];
    }
  }

  lemma WalkStepClean(src: Source, o: Options, w: Walk)
    requires o.pageSize >= 1 && CleanUnlessFlagged(w.tally)
    ensures var next := WalkStep(src, o, w);
            && CleanUnlessFlagged(next.tally) && next.declared.Some?
            && (next.tally.issues == [] ==> w.tally.issues == [])
  {
    var page := src.page(w.tally.asked, w.cursor, o.pageSize);
    var t0 := w.tally.(asked := w.tally.asked + 1);
    TallyPageClean(src, o.winner, t0, page.data);
    TallyPageClean(src, o.winner, Flag(t0, PageTotalDrift, None), page.data);
    hide TallyPage, Clean;
  }

  lemma {:induction false} WalkFromClean(src: Source, o: Options, w: Walk)
    requires o.pageSize >= 1 && w.pages < Budget(o) && CleanUnlessFlagged(w.tally)
    ensures var r := WalkFrom(src, o, w);
            && CleanUnlessFlagged(r.tally) && r.declared.Some?
            && (r.tally.issues == [] ==> w.tally.issues == [])
    decreases Budget(o) - w.pages
  {
    WalkStepClean(src, o, w);
    var next := WalkStep(src, o, w);
    if !next.done {
      assert next.pages < Budget(o);
      WalkFromClean(src, o, next);
    }
  }

  /** Everything a conserved report vouches for, about the walk `w` behind it. */
  ghost predicate Accounted(o: Options, w: Walk, r: Report) {
    var t := w.tally;
    && o.issues == [] && t.issues == [] && r.issues == []
    && Clean(t)
    && w.declared == Some(|t.listed|) && r.bidders == |t.listed|
    && (o.expected.Some? ==> ToSet(o.expected.value) == ToSet(t.listed))
    && (o.winner.Some? ==> o.winner.value in t.listed)
    && r.payable == o.payable && 0 <= r.payable <= r.winnerEscrow == t.winnerEscrow
    && r.escrowHeld == t.escrowHeld == r.refundable + r.payable + r.surplus && r.stranded == 0
  }

  lemma FinalChecksSay(o: Options, w: Walk)
    requires FinalIssues(o, w) == [] && CleanUnlessFlagged(w.tally)
    ensures w.tally.issues == [] && Clean(w.tally)
    ensures w.declared.Some? ==> w.declared.value == |w.tally.listed|
    ensures o.winner.Some? ==> o.winner.value in w.tally.listed
    ensures o.expected.Some? ==> ToSet(o.expected.value) == ToSet(w.tally.listed)
  {
    if o.expected.Some? {
      var expected := Dedup(o.expected.value);
      NothingMissing(expected, w.tally.seen);
      SameSizeSubset(expected, w.tally.seen);
      assert ToSet(expected) == ToSet(o.expected.value);
    }
  }

  /** What a conserved verdict says about the totals behind it. */
  lemma VerdictSays(t: Totals, bidders: nat)
    requires EvaluateEscrowConservation(t, bidders).conserved
    ensures var r := EvaluateEscrowConservation(t, bidders);
            && t.issues == [] && r.issues == [] && r.bidders == bidders
            && 0 <= r.payable == t.payable && r.payable <= r.winnerEscrow == t.winnerEscrow
            && r.escrowHeld == t.escrowHeld == r.refundable + r.payable + r.surplus && r.stranded == 0
  {
  }

  /**
   * Whatever the source answers, the walk ends within its page budget; and if it still reports the
   * round conserved, every listed address was listed once, there were as many as declared, they are
   * the expected bidders, each has an unsettled bid state, the payout is covered by the winner's own
   * escrow, and what the operation moves is all that is held.
   */
  lemma HostileSourceCannotFool(src: Source, o: Options)
    requires 1 <= o.pageSize <= 100
    ensures WalkFrom(src, o, Start(o)).pages <= Budget(o)
    ensures Prove(src, o).conserved ==> Accounted(o, WalkFrom(src, o, Start(o)), Prove(src, o))
  {
    WalkFromClean(src, o, Start(o));
    var w := WalkFrom(src, o, Start(o));
    hide WalkFrom, FinalIssues;
    if Prove(src, o).conserved {
      ConcludeSays(o, w);
    }
    hide Clean, Conclude, Accounted;
  }

  lemma ConcludeSays(o: Options, w: Walk)
    requires Conclude(o, w).conserved && w.declared.Some? && CleanUnlessFlagged(w.tally)
    requires w.tally.issues == [] ==> o.issues == []
    ensures Accounted(o, w, Conclude(o, w))
  {
    var t := w.tally;
    VerdictSays(Totals(t.escrowHeld, t.refundable, o.payable, t.winnerEscrow, FinalIssues(o, w)), |t.seen|);
    FinalChecksSay(o, w);
    hide FinalIssues, EvaluateEscrowConservation;
  }

  // ---- Truthful bid states: what a conserved report says about `settle` -----------------------

  /** Bid reads come from the stored states, whatever the pages say. */
  ghost predicate TruthfulBids(src: Source, c: Cell) {
    forall n, b :: src.bid(n, b) == if b in c.bids then Some(c.bids[b]) else None
  }

  ghost predicate Mirrors(c: Cell, winner: Option<Address>, t: Tally) {
    && (forall b :: b in t.listed ==> b in c.bids && c.bids[b].escrow >= 0 && !c.bids[b].settled)
    && t.escrowHeld == Held(c.bids, t.listed)
    && t.winnerEscrow == (if winner.Some? && winner.value in t.listed then HeldBy(c.bids, winner.value) else 0)
  }

  lemma TallyBidderMirrors(src: Source, c: Cell, winner: Option<Address>, t: Tally, b: Address)
    requires TruthfulBids(src, c) && CleanUnlessFlagged(t) && (t.issues == [] ==> Mirrors(c, winner, t))
    ensures var u := TallyBidder(src, winner, t, b); u.issues == [] ==> Mirrors(c, winner, u)
  {
    var u := TallyBidder(src, winner, t, b);
    if u.issues == [] {
      HeldAppend(c.bids, t.listed, b);
      assert src.bid(t.asked, b) == if b in c.bids then Some(c.bids[b]) else None;
    }
  }

  lemma {:induction false} TallyPageMirrors(src: Source, c: Cell, winner: Option<Address>, t: Tally, data: seq<Address>)
    requires TruthfulBids(src, c) && CleanUnlessFlagged(t) && (t.issues == [] ==> Mirrors(c, winner, t))
    ensures var u := TallyPage(src, winner, t, data); u.issues == [] ==> Mirrors(c, winner, u)
    decreases |data|
  {
    if data != [] {
      TallyBidderMirrors(src, c, winner, t, data[0]);
      TallyBidderClean(src, winner, t, data[0]);
      TallyPageMirrors(src, c, winner, TallyBidder(src, winner, t, data[0]), data[1..]);
    }
  }

  lemma {:induction false} WalkFromMirrors(src: Source, o: Options, c: Cell, winner: Option<Address>, w: Walk)
    requires o.pageSize >= 1 && w.pages < Budget(o) && o.winner == winner
    requires TruthfulBids(src, c) && CleanUnlessFlagged(w.tally)
            && (w.tally.issues == [] ==> Mirrors(c, winner, w.tally))
    ensures var r := WalkFrom(src, o, w); r.tally.issues == [] ==> Mirrors(c, winner, r.tally)
    decreases Budget(o) - w.pages
  {
    var page := src.page(w.tally.asked, w.cursor, o.pageSize);
    var t0 := w.tally.(asked := w.tally.asked + 1);
    TallyPageMirrors(src, c, winner, t0, page.data);
    TallyPageMirrors(src, c, winner, Flag(t0, PageTotalDrift, None), page.data);
    WalkStepClean(src, o, w);
    var next := WalkStep(src, o, w);
    assert next.tally.issues == [] ==> Mirrors(c, winner, next.tally) by {
      hide TallyPage, Clean;
    }
    if !next.done {
      assert next.pages < Budget(o);
      WalkFromMirrors(src, o, c, winner, next);
    }
  }

  /**
   * Over any stored states and any pages: if the bid reads are truthful, the report for the stored winner and
   * winning bid is conserved, and the stored ledger is conserved with exactly the held escrow locked, then
   * `settle`'s scan and plan checks pass exactly when no bidder with escrow stands in the stored index twice.
   */
  lemma ConservedReportPassesChecks(src: Source, o: Options, c: Cell, winner: Address)
    requires 1 <= o.pageSize <= 100 && TruthfulBids(src, c)
    requires o.winner == Some(winner) && o.payable == c.round.winningBid && o.expected == Some(c.round.bidders)
    requires c.ledger.Some? && Spec.Conserved(c.ledger.value) == Ok(true)
    requires c.ledger.value.locked == Prove(src, o).escrowHeld && Prove(src, o).conserved
    ensures Spec.SettleChecks(c, winner) == Ok(c.ledger.value) <==> Guard.NoDoubleEscrow(c.bids, c.round.bidders)
  {
    hide WalkFrom, Prove, Accounted, Mirrors, CleanUnlessFlagged;
    HostileSourceCannotFool(src, o);
    StartIsClean(o, c, winner);
    WalkFromMirrors(src, o, c, Some(winner), Start(o));
    var w, r := WalkFrom(src, o, Start(o)), Prove(src, o);
    assert w.tally.issues == [] by {
      AccountedIssues(o, w, r);
    }
    ChecksFromReport(o, c, winner, w, r);
  }

  lemma AccountedIssues(o: Options, w: Walk, r: Report)
    requires Accounted(o, w, r)
    ensures w.tally.issues == []
  {
  }

  lemma StartIsClean(o: Options, c: Cell, winner: Address)
    ensures CleanUnlessFlagged(Start(o).tally) && Mirrors(c, Some(winner), Start(o).tally)
  {
  }

  /** The indexed bids of a conserved report are all there, unsettled, and hold what the walk counted. */
  lemma IndexFromReport(o: Options, c: Cell, winner: Address, w: Walk, r: Report)
    requires Accounted(o, w, r) && Mirrors(c, Some(winner), w.tally)
    requires o.winner == Some(winner) && o.payable == c.round.winningBid && o.expected == Some(c.round.bidders)
    ensures Guard.Unsettled(c.bids, c.round.bidders) && Guard.NonNegativeAt(c.bids, c.round.bidders)
    ensures r.escrowHeld == Guard.Distinct(c.bids, {}, c.round.bidders)
    ensures winner in c.round.bidders && 0 <= c.round.winningBid <= c.bids[winner].escrow
  {
    var t := w.tally;
    var bidders := c.round.bidders;
    forall b
      ensures b in bidders <==> b in t.listed
    {
      assert b in ToSet(bidders) <==> b in ToSet(t.listed);
    }
    assert ToSet(bidders) - {} == ToSet(bidders);
    Guard.DistinctIsHeld(c.bids, {}, bidders, t.listed);
  }

  lemma {:induction false} ClaimsNothing(bidders: seq<Address>, winner: Address)
    ensures Guard.Claimed(bidders, winner, 0) == 0
  {
    if bidders != [] {
      ClaimsNothing(bidders[1..], winner);
    }
  }

  lemma StandsOnce(bids: map<Address, BidState>, bidders: seq<Address>)
    requires Guard.NoDoubleEscrow(bids, bidders) && bidders != [] && bidders[0] in bids && bids[bidders[0]].escrow > 0
    ensures bidders[0] !in bidders[1..]
  {
    forall j | 0 <= j < |bidders[1..]|
      ensures bidders[1..][j] != bidders[0]
    {
      assert bidders[1..][j] == bidders[j + 1];
    }
  }

  /** A winner that stands in the index once, or bids nothing, claims its bid once. */
  lemma {:induction false} ClaimsOnce(bids: map<Address, BidState>, bidders: seq<Address>, winner: Address, w: int)
    requires winner in bidders && winner in bids && 0 <= w <= bids[winner].escrow
    requires Guard.NoDoubleEscrow(bids, bidders)
    ensures Guard.Claimed(bidders, winner, w) == w
  {
    if w == 0 {
      ClaimsNothing(bidders, winner);
    } else if bidders[0] == winner {
      StandsOnce(bids, bidders);
      Guard.AbsentClaimsNothing(bidders[1..], winner, w);
    } else {
      var rest := bidders[1..];
      forall i, j | 0 <= i < j < |rest| && rest[i] == rest[j] && rest[i] in bids
        ensures bids[rest[i]].escrow == 0
      {
        assert bidders[i + 1] == bidders[j + 1];
      }
      ClaimsOnce(bids, rest, winner, w);
    }
  }

  lemma ChecksFromReport(o: Options, c: Cell, winner: Address, w: Walk, r: Report)
    requires Accounted(o, w, r) && Mirrors(c, Some(winner), w.tally)
    requires o.winner == Some(winner) && o.payable == c.round.winningBid && o.expected == Some(c.round.bidders)
    requires c.ledger.Some? && Spec.Conserved(c.ledger.value) == Ok(true) && c.ledger.value.locked == r.escrowHeld
    ensures Spec.SettleChecks(c, winner) == Ok(c.ledger.value) <==> Guard.NoDoubleEscrow(c.bids, c.round.bidders)
  {
    IndexFromReport(o, c, winner, w, r);
    hide Accounted, Mirrors;
    if Spec.SettleChecks(c, winner).Ok? {
      Guard.ScanSays(EscrowIndex(0, 0), c.bids, c.round.bidders);
      Guard.EqualMeansNoDouble(c.bids, c.round.bidders);
    }
    if Guard.NoDoubleEscrow(c.bids, c.round.bidders) {
      ChecksPass(c, winner, r.escrowHeld);
    }
  }

  lemma ChecksPass(c: Cell, winner: Address, held: int)
    requires Guard.Unsettled(c.bids, c.round.bidders) && Guard.NonNegativeAt(c.bids, c.round.bidders)
    requires held == Guard.Distinct(c.bids, {}, c.round.bidders) && Guard.NoDoubleEscrow(c.bids, c.round.bidders)
    requires winner in c.round.bidders && 0 <= c.round.winningBid <= c.bids[winner].escrow
    requires c.ledger.Some? && Spec.Conserved(c.ledger.value) == Ok(true) && c.ledger.value.locked == held
    ensures Spec.SettleChecks(c, winner) == Ok(c.ledger.value)
  {
    var bidders, w := c.round.bidders, c.round.winningBid;
    Guard.NoDoubleMeansEqual(c.bids, {}, bidders);
    HeldBounds(c.bids, bidders);
    ScanIsHeld(EscrowIndex(0, 0), c.bids, bidders);
    Guard.PlanRuns(0, c.bids, winner, w, bidders);
    Guard.PlanSays(0, c.bids, winner, w, bidders);
    ClaimsOnce(c.bids, bidders, winner, w);
    hide Spec.Scan, Spec.Plan, Guard.Distinct, Guard.Claimed, Held;
  }

  // ---- A faithful source ---------------------------------------------------------------------

  /** One page of the stored index through the numeric cursor: 0 starts, 0 ends. */
  ghost function PageOf(bidders: seq<Address>, cursor: int, limit: int): Page
    requires 0 <= cursor <= |bidders| && limit >= 1
  {
    if cursor + limit < |bidders| then Page(bidders[cursor..cursor + limit], cursor + limit, |bidders|)
    else Page(bidders[cursor..], 0, |bidders|)
  }

  ghost predicate FaithfulPages(src: Source, bidders: seq<Address>) {
    forall n, cursor, limit :: 0 <= cursor <= |bidders| && limit >= 1 ==>
      src.page(n, cursor, limit) == PageOf(bidders, cursor, limit)
  }

  lemma WalkStepLists(src: Source, o: Options, w: Walk)
    requires o.pageSize >= 1 && CleanUnlessFlagged(w.tally)
    ensures WalkStep(src, o, w).tally.listed == w.tally.listed + src.page(w.tally.asked, w.cursor, o.pageSize).data
  {
    var page := src.page(w.tally.asked, w.cursor, o.pageSize);
    hide TallyPage;
    var t0 := w.tally.(asked := w.tally.asked + 1);
    TallyPageClean(src, o.winner, t0, page.data);
    TallyPageClean(src, o.winner, Flag(t0, PageTotalDrift, None), page.data);
  }

  /** A faithful walk that flags nothing has listed the stored index, entry by entry. */
  lemma {:induction false} FaithfulWalkLists(src: Source, o: Options, bidders: seq<Address>, w: Walk)
    requires o.pageSize >= 1 && w.pages < Budget(o) && FaithfulPages(src, bidders)
    requires 0 <= w.cursor <= |bidders| && w.tally.listed == bidders[..w.cursor] && CleanUnlessFlagged(w.tally)
    ensures var r := WalkFrom(src, o, w); r.tally.issues == [] ==> r.tally.listed == bidders
    decreases Budget(o) - w.pages
  {
    hide TallyPage, Clean;
    var page := src.page(w.tally.asked, w.cursor, o.pageSize);
    assert page == PageOf(bidders, w.cursor, o.pageSize);
    WalkStepClean(src, o, w);
    WalkStepLists(src, o, w);
    var next := WalkStep(src, o, w);
    if !next.done {
      assert next.pages < Budget(o);
      FaithfulWalkLists(src, o, bidders, next);
    }
  }

  /**
   * With pages read faithfully from the stored index, duplicates need no separate hypothesis: a
   * conserved report alone, with a matching ledger, makes `settle`'s checks pass.
   */
  lemma FaithfulReportPassesChecks(src: Source, o: Options, c: Cell, winner: Address)
    requires 1 <= o.pageSize <= 100 && TruthfulBids(src, c) && FaithfulPages(src, c.round.bidders)
    requires o.winner == Some(winner) && o.payable == c.round.winningBid && o.expected == Some(c.round.bidders)
    requires c.ledger.Some? && Spec.Conserved(c.ledger.value) == Ok(true)
            && c.ledger.value.locked == Prove(src, o).escrowHeld
    requires Prove(src, o).conserved
    ensures Spec.SettleChecks(c, winner) == Ok(c.ledger.value)
  {
    HostileSourceCannotFool(src, o);
    FaithfulWalkLists(src, o, c.round.bidders, Start(o));
    hide WalkFrom, Prove, FaithfulPages;
    NoDupNoDouble(c);
    hide Guard.NoDoubleEscrow, Spec.SettleChecks, Spec.Conserved;
    ConservedReportPassesChecks(src, o, c, winner);
  }

  lemma NoDupNoDouble(c: Cell)
    ensures NoDup(c.round.bidders) ==> Guard.NoDoubleEscrow(c.bids, c.round.bidders)
  {
  }

  ghost function TwiceIndexed(): Cell {
    Cell(Round(Account(9), 1, HighestBid, 1, 3, Cleared, [Account(1), Account(1)], Some(Account(1)), 4),
         map[Account(1) := BidState(seq(32, _ => 0), 5, Some(4), Some(seq(32, _ => 0)), true, false)],
         Some(EscrowLedger(5, 0, 0, 5)))
  }

  ghost function HidingSource(): Source {
    Source((_, _, _) => Page([Account(1)], 0, 1),
           (_, b) => if b in TwiceIndexed().bids then Some(TwiceIndexed().bids[b]) else None)
  }

  ghost function HidingOptions(): Options {
    Options(100, 4, Some(Account(1)), Some(TwiceIndexed().round.bidders), [], None)
  }

  lemma TwiceIndexedRefused()
    ensures Spec.SettleChecks(TwiceIndexed(), Account(1)) == Err(EscrowNotConserved)
    ensures Spec.Conserved(TwiceIndexed().ledger.value) == Ok(true)
  {
    var c := TwiceIndexed();
    var b := c.round.bidders;
    assert b[1..] == [Account(1)] && b[1..][1..] == [];
    assert Spec.Scan(EscrowIndex(5, 0), c.bids, b[1..]) == Ok(EscrowIndex(10, 0));
  }

  /** What the walk over the hiding source ends with: five held, five of it the winner's. */
  ghost function HidingEnd(): Walk {
    Walk(Tally([Account(1)], 5, 0, 5, [], 2, [Account(1)], [Some(TwiceIndexed().bids[Account(1)])]), Some(1), 0, 1,
        true)
  }

  lemma HidingTally()
    ensures TallyPage(HidingSource(), Some(Account(1)), Tally([], 0, 0, 0, [], 1, [], []), [Account(1)])
            == HidingEnd().tally
  {
    var t := Tally([], 0, 0, 0, [], 1, [], []);
    assert [Account(1)][1..] == [];
    assert TallyBidder(HidingSource(), Some(Account(1)), t, Account(1)) == HidingEnd().tally;
  }

  lemma HidingWalk()
    ensures WalkFrom(HidingSource(), HidingOptions(), Start(HidingOptions())) == HidingEnd()
  {
    HidingTally();
    hide TallyPage;
    assert WalkStep(HidingSource(), HidingOptions(), Start(HidingOptions())) == HidingEnd();
  }

  lemma HidingReport()
    ensures Prove(HidingSource(), HidingOptions()).conserved
    ensures Prove(HidingSource(), HidingOptions()).escrowHeld == 5
  {
    HidingWalk();
    HidingIssues();
    hide WalkFrom, FinalIssues, HidingSource, Start;
    assert Conclude(HidingOptions(), HidingEnd()).conserved;
  }

  lemma HidingIssues()
    ensures FinalIssues(HidingOptions(), HidingEnd()) == []
  {
    DedupTwice();
    hide Dedup, MissingIssues;
  }

  lemma DedupTwice()
    ensures Dedup(TwiceIndexed().round.bidders) == [Account(1)]
    ensures MissingIssues([Account(1)], [Account(1)]) == []
  {
    var b := TwiceIndexed().round.bidders;
    assert b[..1] == [Account(1)] && [Account(1)][..0] == [];
  }

  /**
   * Without faithful pages the duplicate check cannot be dropped: a source that hides the second
   * copy of a duplicated bidder gets a conserved report for an index `settle` refuses to pay from.
   */
  lemma HiddenDuplicateFoolsReport()
    ensures TruthfulBids(HidingSource(), TwiceIndexed())
    ensures Spec.Conserved(TwiceIndexed().ledger.value) == Ok(true)
    ensures Prove(HidingSource(), HidingOptions()).conserved
    ensures Prove(HidingSource(), HidingOptions()).escrowHeld == TwiceIndexed().ledger.value.locked
    ensures Spec.SettleChecks(TwiceIndexed(), Account(1)) == Err(EscrowNotConserved)
  {
    TwiceIndexedRefused();
    HidingReport();
    hide Prove, Spec.SettleChecks, Spec.Conserved;
  }
}
