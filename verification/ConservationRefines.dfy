/** On a reachable cleared round a faithful walk is conserved and predicts exactly what `settle` moves. */
module ConservationRefines {
  import opened Prelude
  import opened RoundTypes
  import Spec = RoundSpec
  import opened RoundInvariant
  import opened Payout
  import opened Settlement
  import opened Conservation
  import opened ConservationProofs

  /** The walk so far saw the first `k` indexed bidders and found nothing wrong. */
  ghost predicate OnTrack(c: Cell, winner: Option<Address>, t: Tally, k: nat)
    requires k <= |c.round.bidders|
  {
    var front := c.round.bidders[..k];
    && t.issues == [] && t.seen == front
    && t.escrowHeld == Held(c.bids, front)
    && t.winnerEscrow == (if winner.Some? && winner.value in front then HeldBy(c.bids, winner.value) else 0)
    && t.refundable == t.escrowHeld - t.winnerEscrow
  }

  /** Nothing about the stored bids gives the walk reason to complain. */
  ghost predicate Blameless(c: Cell) {
    && NoDup(c.round.bidders) && |c.round.bidders| <= MAX_BIDDERS
    && forall b :: b in c.round.bidders ==> b in c.bids && c.bids[b].escrow >= 0 && !c.bids[b].settled
  }

  lemma TallyBidderOnTrack(src: Source, c: Cell, winner: Option<Address>, t: Tally, k: nat)
    requires TruthfulBids(src, c) && Blameless(c) && k < |c.round.bidders| && OnTrack(c, winner, t, k)
    ensures OnTrack(c, winner, TallyBidder(src, winner, t, c.round.bidders[k]), k + 1)
  {
    var b := c.round.bidders[k];
    var front := c.round.bidders[..k];
    assert c.round.bidders[..k + 1] == front + [b];
    HeldAppend(c.bids, front, b);
    assert src.bid(t.asked, b) == Some(c.bids[b]);
    assert b !in front;
  }

  lemma {:induction false} TallyPageOnTrack(src: Source, c: Cell, winner: Option<Address>, t: Tally, k: nat, m: nat)
    requires TruthfulBids(src, c) && Blameless(c) && k <= m <= |c.round.bidders| && OnTrack(c, winner, t, k)
    ensures OnTrack(c, winner, TallyPage(src, winner, t, c.round.bidders[k..m]), m)
    decreases m - k
  {
    if k < m {
      TallyBidderOnTrack(src, c, winner, t, k);
      assert c.round.bidders[k..m][1..] == c.round.bidders[k + 1..m];
      TallyPageOnTrack(src, c, winner, TallyBidder(src, winner, t, c.round.bidders[k]), k + 1, m);
    }
  }

  lemma PagesSuffice(pageSize: int, pages: nat)
    requires pageSize >= 1 && pages * pageSize < ESCROW_MAX_BIDDERS
    ensures pages < (ESCROW_MAX_BIDDERS + pageSize - 1) / pageSize
  {
    var q := (ESCROW_MAX_BIDDERS + pageSize - 1) / pageSize;
    assert q * pageSize >= ESCROW_MAX_BIDDERS;
    assert pages >= q ==> pages * pageSize >= q * pageSize;
  }

  /** A walk position that fits the page counter. */
  ghost predicate AtPage(o: Options, c: Cell, winner: Option<Address>, w: Walk) {
    && 0 <= w.cursor <= |c.round.bidders| && w.cursor == w.pages * o.pageSize
    && (w.declared.Some? ==> w.declared.value == |c.round.bidders|)
    && OnTrack(c, winner, w.tally, w.cursor)
  }

  /** One turn of the walk over a page read faithfully up to position `m` of `n`. */
  lemma WalkTurn(src: Source, o: Options, w: Walk, page: Page, t: Tally, m: nat, n: nat)
    requires o.pageSize >= 1 && w.cursor >= 0 && page == src.page(w.tally.asked, w.cursor, o.pageSize)
    requires t == TallyPage(src, o.winner, w.tally.(asked := w.tally.asked + 1), page.data)
    requires page.total == n && page.nextCursor == (if m < n then m else 0) && m <= n <= ESCROW_MAX_BIDDERS
    requires (w.declared.Some? ==> w.declared.value == n) && |t.seen| == m
    requires m < n ==> w.cursor < m && w.pages + 1 < MaxPages(o)
    ensures WalkStep(src, o, w)
         == if m < n then Walk(t, Some(n), m, w.pages + 1, false) else Walk(t, Some(n), w.cursor, w.pages + 1, true)
  {
    hide TallyPage;
  }

  /** The page at the walk's position, tallied, keeps the walk on track up to the end of that page. */
  lemma PageOnTrack(src: Source, o: Options, c: Cell, winner: Option<Address>, w: Walk)
    requires 1 <= o.pageSize && o.winner == winner
    requires TruthfulBids(src, c) && FaithfulPages(src, c.round.bidders) && Blameless(c)
    requires AtPage(o, c, winner, w)
    ensures var n := |c.round.bidders|; var page := src.page(w.tally.asked, w.cursor, o.pageSize);
            var m := if w.cursor + o.pageSize < n then w.cursor + o.pageSize else n;
            var t := TallyPage(src, o.winner, w.tally.(asked := w.tally.asked + 1), page.data);
            && page.total == n && page.nextCursor == (if m < n then m else 0)
            && OnTrack(c, winner, t, m) && |t.seen| == m
  {
    var bidders := c.round.bidders;
    var page := src.page(w.tally.asked, w.cursor, o.pageSize);
    assert page == PageOf(bidders, w.cursor, o.pageSize);
    var m := if w.cursor + o.pageSize < |bidders| then w.cursor + o.pageSize else |bidders|;
    assert page.data == bidders[w.cursor..m];
    hide TallyPage, Held, HeldBy, Blameless, TruthfulBids, FaithfulPages;
    var t0 := w.tally.(asked := w.tally.asked + 1);
    assert OnTrack(c, winner, t0, w.cursor);
    TallyPageOnTrack(src, c, winner, t0, w.cursor, m);
  }

  lemma WalkStepOnTrack(src: Source, o: Options, c: Cell, winner: Option<Address>, w: Walk)
    requires 1 <= o.pageSize <= 100 && o.maxPages == None && o.winner == winner
    requires TruthfulBids(src, c) && FaithfulPages(src, c.round.bidders) && Blameless(c)
    requires AtPage(o, c, winner, w)
    ensures var next := WalkStep(src, o, w);
            && next.declared == Some(|c.round.bidders|)
            && (if next.done then OnTrack(c, winner, next.tally, |c.round.bidders|) else AtPage(o, c, winner, next))
  {
    var n := |c.round.bidders|;
    var page := src.page(w.tally.asked, w.cursor, o.pageSize);
    var m := if w.cursor + o.pageSize < n then w.cursor + o.pageSize else n;
    var t := TallyPage(src, o.winner, w.tally.(asked := w.tally.asked + 1), page.data);
    PageOnTrack(src, o, c, winner, w);
    hide TallyPage, TruthfulBids, FaithfulPages, WalkStep, OnTrack;
    if m < n {
      NextPage(o.pageSize, w.pages, m);
    }
    WalkTurn(src, o, w, page, t, m, n);
  }

  lemma NextPage(pageSize: int, pages: nat, m: int)
    requires pageSize >= 1 && m == pages * pageSize + pageSize && m < ESCROW_MAX_BIDDERS
    ensures (pages + 1) * pageSize == m && pages + 1 < (ESCROW_MAX_BIDDERS + pageSize - 1) / pageSize
  {
    assert (pages + 1) * pageSize == m;
    PagesSuffice(pageSize, pages + 1);
  }

  lemma {:induction false} WalkOnTrack(src: Source, o: Options, c: Cell, winner: Option<Address>, w: Walk)
    requires 1 <= o.pageSize <= 100 && o.maxPages == None && o.winner == winner
    requires TruthfulBids(src, c) && FaithfulPages(src, c.round.bidders) && Blameless(c)
    requires w.pages < Budget(o) && AtPage(o, c, winner, w)
    ensures var r := WalkFrom(src, o, w);
            r.declared == Some(|c.round.bidders|) && OnTrack(c, winner, r.tally, |c.round.bidders|)
    decreases Budget(o) - w.pages
  {
    WalkStepOnTrack(src, o, c, winner, w);
    var next := WalkStep(src, o, w);
    if !next.done {
      assert next.pages < Budget(o);
      hide AtPage, OnTrack;
      WalkOnTrack(src, o, c, winner, next);
    }
  }

  lemma {:induction false} AllSeen(expected: seq<Address>, seen: seq<Address>)
    requires forall a :: a in expected ==> a in seen
    ensures MissingIssues(expected, seen) == []
  {
    if expected != [] {
      AllSeen(expected[..|expected| - 1], seen);
    }
  }

  lemma {:induction false} DedupIdentity(s: seq<Address>)
    requires NoDup(s)
    ensures Dedup(s) == s
  {
    if s != [] {
      DedupIdentity(s[..|s| - 1]);
      assert s == s[..|s| - 1] + [s[|s| - 1]];
    }
  }

  /** The winner's own escrow; nothing when nobody is to be paid. */
  ghost function WinnerEscrow(c: Cell, winner: Option<Address>): int {
    if winner.Some? then HeldBy(c.bids, winner.value) else 0
  }

  lemma FinalChecksPass(o: Options, c: Cell, w: Walk)
    requires Blameless(c) && (o.winner.Some? ==> o.winner.value in c.round.bidders)
    requires o.expected == None || o.expected == Some(c.round.bidders)
    requires w.declared == Some(|c.round.bidders|) && OnTrack(c, o.winner, w.tally, |c.round.bidders|)
    ensures FinalIssues(o, w) == []
    ensures w.tally.escrowHeld == CellHeld(c) && w.tally.winnerEscrow == WinnerEscrow(c, o.winner)
    ensures w.tally.refundable == CellHeld(c) - WinnerEscrow(c, o.winner) && |w.tally.seen| == |c.round.bidders|
  {
    assert c.round.bidders[..|c.round.bidders|] == c.round.bidders;
    DedupIdentity(c.round.bidders);
    AllSeen(c.round.bidders, w.tally.seen);
  }

  /** What a faithful report on this cell comes to, once conserved. */
  ghost predicate Exact(c: Cell, o: Options, r: Report) {
    && r.issues == [] && r.bidders == |c.round.bidders| && r.escrowHeld == CellHeld(c)
    && r.payable == o.payable && r.winnerEscrow == WinnerEscrow(c, o.winner)
    && r.refundable == CellHeld(c) - r.winnerEscrow && r.surplus == r.winnerEscrow - r.payable && r.stranded == 0
  }

  /** What the operation promises can be met by this cell. */
  ghost predicate Coverable(c: Cell, o: Options) {
    && (o.winner.Some? ==> o.winner.value in c.round.bidders)
    && 0 <= o.payable <= WinnerEscrow(c, o.winner)
  }

  lemma FaithfulReport(src: Source, o: Options, c: Cell)
    requires 1 <= o.pageSize <= 100 && o.maxPages == None && o.issues == []
    requires o.expected == None || o.expected == Some(c.round.bidders)
    requires TruthfulBids(src, c) && FaithfulPages(src, c.round.bidders) && Blameless(c) && Coverable(c, o)
    ensures Prove(src, o).conserved && Exact(c, o, Prove(src, o))
  {
    WithinHeld(c, o.winner);
    hide WalkFrom, FinalIssues, FaithfulPages, TruthfulBids, Blameless, CellHeld;
    assert AtPage(o, c, o.winner, Start(o)) by {
      StartsOnTrack(o, c);
    }
    WalkOnTrack(src, o, c, o.winner, Start(o));
    FinalChecksPass(o, c, WalkFrom(src, o, Start(o)));
    hide OnTrack;
    ConcludeExact(o, c, WalkFrom(src, o, Start(o)));
    hide WinnerEscrow, Conclude, Exact, Coverable;
  }

  lemma ConcludeExact(o: Options, c: Cell, w: Walk)
    requires 0 <= o.payable <= WinnerEscrow(c, o.winner) <= CellHeld(c) && FinalIssues(o, w) == []
    requires w.tally.escrowHeld == CellHeld(c) && w.tally.winnerEscrow == WinnerEscrow(c, o.winner)
    requires w.tally.refundable == CellHeld(c) - WinnerEscrow(c, o.winner) && |w.tally.seen| == |c.round.bidders|
    ensures Conclude(o, w).conserved && Exact(c, o, Conclude(o, w))
  {
    hide FinalIssues, WinnerEscrow, CellHeld;
  }

  lemma StartsOnTrack(o: Options, c: Cell)
    requires o.issues == []
    ensures AtPage(o, c, o.winner, Start(o))
  {
    assert c.round.bidders[..0] == [];
  }

  lemma WithinHeld(c: Cell, winner: Option<Address>)
    requires Blameless(c) && (winner.Some? ==> winner.value in c.round.bidders)
    ensures 0 <= WinnerEscrow(c, winner) <= CellHeld(c)
  {
    if winner.Some? {
      HeldUpdate(c.bids, c.round.bidders, winner.value, c.bids[winner.value].(settled := true));
      HeldBounds(c.bids[winner.value := c.bids[winner.value].(settled := true)], c.round.bidders);
    } else {
      HeldBounds(c.bids, c.round.bidders);
    }
  }

  lemma {:induction false} FlagsTooMany(src: Source, o: Options, w: Walk)
    requires o.pageSize >= 1 && w.pages < Budget(o)
    ensures var r := WalkFrom(src, o, w); r.tally.issues == [] ==> |r.tally.seen| <= 500
    decreases Budget(o) - w.pages
  {
    var next := WalkStep(src, o, w);
    if !next.done {
      assert next.pages < Budget(o);
      FlagsTooMany(src, o, next);
    }
    hide TallyPage;
  }

  /** A conserved report on faithful answers leaves nothing to complain of in the stored cell. */
  lemma ConservedIsBlameless(src: Source, o: Options, c: Cell)
    requires o.maxPages == None && TruthfulBids(src, c) && FaithfulPages(src, c.round.bidders)
    requires Prove(src, o).conserved
    ensures 1 <= o.pageSize <= 100 && Blameless(c) && Coverable(c, o)
  {
    assert 1 <= o.pageSize <= 100;
    var w := WalkFrom(src, o, Start(o));
    hide Prove, WalkFrom, FaithfulPages, TruthfulBids, Mirrors, CleanUnlessFlagged, Accounted;
    HostileSourceCannotFool(src, o);
    StartsMirrored(o, c);
    AccountedIssues(o, w, Prove(src, o));
    WalkFromMirrors(src, o, c, o.winner, Start(o));
    FaithfulWalkLists(src, o, c.round.bidders, Start(o));
    FlagsTooMany(src, o, Start(o));
    MirroredIsBlameless(o, c, w, Prove(src, o));
  }

  lemma StartsMirrored(o: Options, c: Cell)
    ensures CleanUnlessFlagged(Start(o).tally) && Mirrors(c, o.winner, Start(o).tally)
    ensures Start(o).tally.listed == c.round.bidders[..0]
  {
  }

  lemma MirroredIsBlameless(o: Options, c: Cell, w: Walk, r: Report)
    requires Accounted(o, w, r) && Mirrors(c, o.winner, w.tally) && w.tally.listed == c.round.bidders
    requires |w.tally.seen| <= 500
    ensures Blameless(c) && Coverable(c, o)
  {
  }

  /**
   * The walk over faithful answers, on any stored cell: the report is conserved exactly when the page size is
   * legal, the index has no duplicate and at most 500 entries, every indexed bid is there, unsettled and not
   * negative, the winner (if any) is indexed, and the payout fits the winner's own escrow.
   */
  lemma FaithfulReportIff(src: Source, o: Options, c: Cell)
    requires o.maxPages == None && o.issues == [] && TruthfulBids(src, c) && FaithfulPages(src, c.round.bidders)
    requires o.expected == None || o.expected == Some(c.round.bidders)
    ensures Prove(src, o).conserved <==> 1 <= o.pageSize <= 100 && Blameless(c) && Coverable(c, o)
    ensures Prove(src, o).conserved ==> Exact(c, o, Prove(src, o))
  {
    hide Prove, TruthfulBids, FaithfulPages, Blameless, Coverable, Exact;
    if Prove(src, o).conserved {
      ConservedIsBlameless(src, o, c);
      FaithfulReport(src, o, c);
    } else if 1 <= o.pageSize <= 100 && Blameless(c) && Coverable(c, o) {
      FaithfulReport(src, o, c);
    }
  }

  /** What the client asks before `settle`: the stored winner and winning bid, and the index of the round record. */
  ghost function OptionsFor(c: Cell, pageSize: int): Options {
    Options(pageSize, c.round.winningBid, c.round.winner, Some(c.round.bidders), [], None)
  }

  /** What it asks before `clear` or `void`: nobody is to be paid. */
  ghost function RefundOptions(c: Cell, pageSize: int): Options {
    Options(pageSize, 0, None, Some(c.round.bidders), [], None)
  }

  lemma SoundIsBlameless(s: State, c: Cell)
    requires RoundInv(s, c) && NoneSettled(c)
    ensures Blameless(c) && Coverable(c, RefundOptions(c, 1))
  {
  }

  ghost function LedgerIn(s: State, rid: nat): Option<EscrowLedger> {
    if rid in s.cells then s.cells[rid].ledger else None
  }

  /** The report foretells how the ledger will move. */
  ghost predicate Foretells(r: Report, before: EscrowLedger, after: Option<EscrowLedger>) {
    && r.conserved && r.escrowHeld == before.locked
    && after.Some?
    && after.value.committed == before.committed && after.value.locked == 0
    && after.value.payout == before.payout + r.payable
    && after.value.refunds == before.refunds + r.refundable + r.surplus
  }

  lemma SettleLedger(s: State, rid: nat)
    requires Inv(s) && rid in s.cells && s.cells[rid].round.status == Cleared
    ensures Spec.Settle(s, rid).Ok? && 0 < s.cells[rid].round.winningBid <= CellHeld(s.cells[rid])
    ensures LedgerIn(Spec.Settle(s, rid).value, rid) == SettledCell(s.cells[rid]).ledger
  {
    hide Spec.Settle, Inv, Payable;
    SettleCannotFail(s, rid);
  }

  lemma SettleReport(s: State, rid: nat, src: Source, pageSize: int)
    requires Inv(s) && rid in s.cells && s.cells[rid].round.status == Cleared && 1 <= pageSize <= 100
    requires TruthfulBids(src, s.cells[rid]) && FaithfulPages(src, s.cells[rid].round.bidders)
    ensures var c := s.cells[rid]; var o := OptionsFor(c, pageSize);
              Prove(src, o).conserved && Exact(c, o, Prove(src, o))
  {
    var c := s.cells[rid];
    assert RoundInv(s, c);
    WinnerIsCovered(s, c);
    SoundIsBlameless(s, c);
    hide Inv, RoundInv, Prove, Exact, Blameless, TruthfulBids, FaithfulPages;
    FaithfulReport(src, OptionsFor(c, pageSize), c);
  }

  lemma ReportForetells(c: Cell, o: Options, r: Report)
    requires LedgerOk(c) && 0 < c.round.winningBid <= CellHeld(c) && o.payable == c.round.winningBid
    requires r.conserved && Exact(c, o, r)
    ensures Foretells(r, LiveLedger(c), SettledCell(c).ledger)
  {
  }

  /**
   * The walk refines the contract. Over any reachable cleared round, at any legal page size, a
   * faithful walk reports the round conserved; what it calls payable is what `settle` pays the
   * operator, and refundable plus surplus is what `settle` refunds.
   */
  lemma FaithfulWalkPredictsSettle(s: State, rid: nat, src: Source, pageSize: int)
    requires Inv(s) && rid in s.cells && s.cells[rid].round.status == Cleared
    requires 1 <= pageSize <= 100 && TruthfulBids(src, s.cells[rid]) && FaithfulPages(src, s.cells[rid].round.bidders)
    ensures Spec.Settle(s, rid).Ok?
    ensures Foretells(Prove(src, OptionsFor(s.cells[rid], pageSize)), LiveLedger(s.cells[rid]),
                      LedgerIn(Spec.Settle(s, rid).value, rid))
  {
    var c := s.cells[rid];
    assert RoundInv(s, c) && LedgerOk(c);
    hide Spec.Settle, Prove, Inv, RoundInv, LedgerOk, TruthfulBids, FaithfulPages, Exact;
    SettleLedger(s, rid);
    SettleReport(s, rid, src, pageSize);
    ReportForetells(c, OptionsFor(c, pageSize), Prove(src, OptionsFor(c, pageSize)));
    hide Foretells, CellHeld, SettledCell, LiveLedger;
  }

  /** The refund of a round `clear` or `void` has decided to void. */
  ghost function Refunded(s: State, rid: nat): Result<State, Error>
    requires rid in s.cells
  {
    var c := s.cells[rid];
    Spec.RefundAll(s, rid, c.(round := c.round.(status := Voided)))
  }

  lemma RefundLedger(s: State, rid: nat)
    requires Inv(s) && rid in s.cells && s.cells[rid].round.status in {Open, Revealing}
    ensures Refunded(s, rid).Ok? && LedgerIn(Refunded(s, rid).value, rid) == VoidedCell(s.cells[rid]).ledger
  {
    RefundCannotFail(s, rid);
    hide Spec.RefundAll, Inv;
  }

  lemma RefundForetells(c: Cell, o: Options, r: Report)
    requires LedgerOk(c) && r.conserved && Exact(c, o, r) && o.payable == 0 && o.winner == None
    ensures Foretells(r, LiveLedger(c), VoidedCell(c).ledger)
    ensures r.refundable == CellHeld(c) && r.surplus == 0 && r.stranded == 0
  {
  }

  /**
   * The same before `clear` or `void`: over any reachable Open or Revealing round a faithful walk with nobody to
   * pay reports the round conserved, all of the held escrow refundable and nothing else, and that is exactly
   * what the refund adds to the ledger's refunds.
   */
  lemma FaithfulWalkPredictsRefund(s: State, rid: nat, src: Source, pageSize: int)
    requires Inv(s) && rid in s.cells && s.cells[rid].round.status in {Open, Revealing}
    requires 1 <= pageSize <= 100 && TruthfulBids(src, s.cells[rid]) && FaithfulPages(src, s.cells[rid].round.bidders)
    ensures var c := s.cells[rid]; var r := Prove(src, RefundOptions(c, pageSize));
            && r.conserved && r.refundable == r.escrowHeld == CellHeld(c) && r.surplus == r.stranded == 0
            && Refunded(s, rid).Ok? && Foretells(r, LiveLedger(c), LedgerIn(Refunded(s, rid).value, rid))
  {
    var c := s.cells[rid];
    assert RoundInv(s, c) && LedgerOk(c);
    SoundIsBlameless(s, c);
    hide Refunded, Prove, Inv, RoundInv, LedgerOk, TruthfulBids, FaithfulPages, Exact, Blameless;
    RefundLedger(s, rid);
    FaithfulReport(src, RefundOptions(c, pageSize), c);
    RefundForetells(c, RefundOptions(c, pageSize), Prove(src, RefundOptions(c, pageSize)));
    hide Foretells, SettledCell, LiveLedger;
  }
}
