/** What each issue of an escrow report says, and each total, whatever source the walk was sent to. */
module ConservationIssues {
  import opened Prelude
  import opened RoundTypes
  import opened Conservation
  import opened ConservationProofs

  // ---- Bidders and bid states ---------------------------------------------------------------------

  ghost predicate Twice(listed: seq<Address>, b: Address) {
    exists i, j :: 0 <= i < j < |listed| && listed[i] == b && listed[j] == b
  }

  /** What is wrong with an answer about a bidder. */
  predicate Bad(code: IssueCode, answer: Option<BidState>) {
    match code
    case BidStateMissing => answer.None?
    case EscrowLocked => answer.Some? && answer.value.escrow < 0
    case BidderAlreadySettled => answer.Some? && answer.value.escrow >= 0 && answer.value.settled
    case _ => false
  }

  ghost predicate AnsweredBadly(t: Tally, code: IssueCode, b: Address) {
    exists i :: 0 <= i < |t.seen| && i < |t.answers| && t.seen[i] == b && Bad(code, t.answers[i])
  }

  /** The defect of a tally that an issue about one bidder stands for. */
  ghost predicate TallyDefect(t: Tally, x: Issue) {
    x.bidder.Some? && (if x.code == DuplicateBidder then Twice(t.listed, x.bidder.value)
                       else AnsweredBadly(t, x.code, x.bidder.value))
  }

  /** Escrow that counts as held: everything answered, unless negative. */
  ghost function HeldIn(answers: seq<Option<BidState>>): int {
    if answers == [] then 0
    else
      var last := answers[|answers| - 1];
      HeldIn(answers[..|answers| - 1]) + (if last.Some? && last.value.escrow >= 0 then last.value.escrow else 0)
  }

  /** Unsettled escrow held by the winner, or by everybody else. */
  ghost function OpenIn(seen: seq<Address>, answers: seq<Option<BidState>>, winner: Option<Address>, won: bool): int
    requires |seen| == |answers|
  {
    if answers == [] then 0
    else
      var n := |answers| - 1;
      var last := answers[n];
      var counts := last.Some? && last.value.escrow >= 0 && !last.value.settled && (won <==> winner == Some(seen[n]));
      OpenIn(seen[..n], answers[..n], winner, won) + (if counts then last.value.escrow else 0)
  }

  ghost predicate SameMembers(seen: seq<Address>, listed: seq<Address>) {
    NoDup(seen) && forall b :: b in seen <==> b in listed
  }

  /** The tally's totals are those of the answers, each bidder asked about once. */
  ghost predicate Totalled(t: Tally, winner: Option<Address>) {
    && |t.answers| == |t.seen| && SameMembers(t.seen, t.listed)
    && t.escrowHeld == HeldIn(t.answers)
    && t.refundable == OpenIn(t.seen, t.answers, winner, false)
    && t.winnerEscrow == OpenIn(t.seen, t.answers, winner, true)
  }

  /** Beside the issues known before the walk, those about a bidder are exactly the tally's defects. */
  ghost predicate Explained(t: Tally, known: seq<Issue>) {
    forall x: Issue :: x.bidder.Some? ==> (x in t.issues <==> x in known || TallyDefect(t, x))
  }

  /** The same issues about no bidder in particular. */
  ghost predicate SameGeneral(t: Tally, u: Tally) {
    forall x: Issue :: x.bidder.None? ==> (x in u.issues <==> x in t.issues)
  }

  lemma ListOneMore(listed: seq<Address>, b: Address, a: Address)
    ensures Twice(listed + [b], a) <==> Twice(listed, a) || (a == b && b in listed)
  {
    var more := listed + [b];
    if Twice(listed, a) {
      var i, j :| 0 <= i < j < |listed| && listed[i] == a && listed[j] == a;
      assert more[i] == a && more[j] == a;
    }
    if a == b && b in listed {
      var i :| 0 <= i < |listed| && listed[i] == b;
      assert more[i] == a && more[|listed|] == a;
    }
    if Twice(more, a) {
      var i, j :| 0 <= i < j < |more| && more[i] == a && more[j] == a;
      assert listed[i] == a;
    }
  }

  lemma AskOneMore(t: Tally, u: Tally, code: IssueCode, b: Address, answer: Option<BidState>, a: Address)
    requires |t.seen| == |t.answers| && u.seen == t.seen + [b] && u.answers == t.answers + [answer]
    ensures AnsweredBadly(u, code, a) <==> AnsweredBadly(t, code, a) || (a == b && Bad(code, answer))
  {
    if AnsweredBadly(t, code, a) {
      var i :| 0 <= i < |t.seen| && i < |t.answers| && t.seen[i] == a && Bad(code, t.answers[i]);
      assert u.seen[i] == a && Bad(code, u.answers[i]);
    }
    if a == b && Bad(code, answer) {
      assert u.seen[|t.seen|] == a && Bad(code, u.answers[|t.seen|]);
    }
  }

  lemma AskedTotals(t: Tally, u: Tally, winner: Option<Address>, b: Address, answer: Option<BidState>)
    requires Totalled(t, winner) && b !in t.listed
    requires u.listed == t.listed + [b] && u.seen == t.seen + [b] && u.answers == t.answers + [answer]
    requires var e := if answer.Some? && answer.value.escrow >= 0 then answer.value.escrow else 0;
             var free := e != 0 && !answer.value.settled;
             && u.escrowHeld == t.escrowHeld + e
             && u.refundable == t.refundable + (if free && winner != Some(b) then e else 0)
             && u.winnerEscrow == t.winnerEscrow + (if free && winner == Some(b) then e else 0)
    ensures Totalled(u, winner)
  {
    var n := |t.seen|;
    assert u.seen[..n] == t.seen && u.answers[..n] == t.answers;
  }

  lemma TallyBidderTotalled(src: Source, winner: Option<Address>, t: Tally, b: Address)
    requires Totalled(t, winner)
    ensures var u := TallyBidder(src, winner, t, b); Totalled(u, winner) && u.listed == t.listed + [b]
  {
    if b !in t.seen {
      AskedTotals(t, TallyBidder(src, winner, t, b), winner, b, src.bid(t.asked, b));
    }
    hide HeldIn, OpenIn;
  }

  lemma TallyBidderIssue(src: Source, winner: Option<Address>, t: Tally, b: Address, x: Issue)
    requires |t.answers| == |t.seen| && SameMembers(t.seen, t.listed)
    ensures var u := TallyBidder(src, winner, t, b);
            x in u.issues <==> x in t.issues || (TallyDefect(u, x) && !TallyDefect(t, x))
                               || (x == Issue(DuplicateBidder, Some(b)) && b in t.listed)
  {
    var u := TallyBidder(src, winner, t, b);
    if x.bidder.Some? {
      ListOneMore(t.listed, b, x.bidder.value);
      if b !in t.seen {
        AskOneMore(t, u, x.code, b, src.bid(t.asked, b), x.bidder.value);
        AskedOnce(t, x.code, b);
      }
    }
    hide Twice, AnsweredBadly;
  }

  lemma AskedOnce(t: Tally, code: IssueCode, b: Address)
    requires b !in t.seen
    ensures !AnsweredBadly(t, code, b)
  {
  }

  lemma TallyBidderExplained(src: Source, winner: Option<Address>, t: Tally, b: Address, known: seq<Issue>)
    requires Totalled(t, winner) && Explained(t, known)
    ensures var u := TallyBidder(src, winner, t, b);
            Totalled(u, winner) && Explained(u, known) && SameGeneral(t, u) && u.listed == t.listed + [b]
  {
    TallyBidderTotalled(src, winner, t, b);
    var u := TallyBidder(src, winner, t, b);
    forall x: Issue
      ensures x in u.issues <==> x in t.issues || (TallyDefect(u, x) && !TallyDefect(t, x))
                                 || (x == Issue(DuplicateBidder, Some(b)) && b in t.listed)
      ensures x.bidder.Some? && TallyDefect(t, x) ==> TallyDefect(u, x)
      ensures x == Issue(DuplicateBidder, Some(b)) && b in t.listed ==> TallyDefect(u, x)
    {
      TallyBidderIssue(src, winner, t, b, x);
      if x.bidder.Some? {
        TallyDefectStays(src, winner, t, b, x);
      }
    }
    hide TallyBidder, Totalled, TallyDefect;
  }

  lemma TallyDefectStays(src: Source, winner: Option<Address>, t: Tally, b: Address, x: Issue)
    requires |t.answers| == |t.seen| && SameMembers(t.seen, t.listed) && x.bidder.Some?
    ensures var u := TallyBidder(src, winner, t, b);
            && (TallyDefect(t, x) ==> TallyDefect(u, x))
            && (x == Issue(DuplicateBidder, Some(b)) && b in t.listed ==> TallyDefect(u, x))
  {
    var u := TallyBidder(src, winner, t, b);
    ListOneMore(t.listed, b, x.bidder.value);
    if b !in t.seen {
      AskOneMore(t, u, x.code, b, src.bid(t.asked, b), x.bidder.value);
    }
    hide Twice, AnsweredBadly;
  }

  lemma {:induction false} TallyPageExplained(src: Source, winner: Option<Address>, t: Tally, data: seq<Address>,
          known: seq<Issue>)
    requires Totalled(t, winner) && Explained(t, known)
    ensures var u := TallyPage(src, winner, t, data);
            Totalled(u, winner) && Explained(u, known) && SameGeneral(t, u) && u.listed == t.listed + data
    decreases |data|
  {
    hide Totalled, Explained;
    if data != [] {
      TallyBidderExplained(src, winner, t, data[0], known);
      TallyPageExplained(src, winner, TallyBidder(src, winner, t, data[0]), data[1..], known);
      assert data == [data[0]] + data[1..];
    }
  }

  // ---- Pages ------------------------------------------------------------------------------------------

  /** The pages the walk is answered with. */
  ghost function Trace(src: Source, o: Options, w: Walk): (pages: seq<Page>)
    requires o.pageSize >= 1 && w.pages < Budget(o)
    ensures |pages| >= 1
    decreases Budget(o) - w.pages
  {
    var next := WalkStep(src, o, w);
    [src.page(w.tally.asked, w.cursor, o.pageSize)] + (if next.done then [] else Trace(src, o, next))
  }

  ghost function Listing(pages: seq<Page>): seq<Address> {
    if pages == [] then [] else pages[0].data + Listing(pages[1..])
  }

  /** The defect of a walk's pages that an issue about no bidder stands for. */
  ghost predicate PageDefect(pages: seq<Page>, total: int, listed: nat, code: IssueCode)
    requires |pages| >= 1
  {
    match code
    case PageTotalDrift => exists k :: 0 <= k < |pages| && pages[k].total != total
    case PageCountMismatch => listed > 500
    case CursorStalled => listed <= 500 && pages[|pages| - 1].nextCursor != 0
    case _ => false
  }

  ghost predicate Paged(w: Walk, r: Walk, pages: seq<Page>)
    requires |pages| >= 1
  {
    && r.declared == Some(if w.declared.Some? then w.declared.value else pages[0].total)
    && r.tally.listed == w.tally.listed + Listing(pages)
    && forall code :: Issue(code, None) in r.tally.issues <==>
         Issue(code, None) in w.tally.issues || PageDefect(pages, r.declared.value, |r.tally.seen|, code)
  }

  /** What one page adds to the issues about no bidder. */
  ghost predicate NewGeneral(w: Walk, next: Walk, page: Page)
    requires next.declared.Some?
  {
    forall code :: Issue(code, None) in next.tally.issues <==>
      || Issue(code, None) in w.tally.issues
      || (code == PageTotalDrift && page.total != next.declared.value)
      || (next.done && code == PageCountMismatch && |next.tally.seen| > 500)
      || (next.done && code == CursorStalled && |next.tally.seen| <= 500 && page.nextCursor != 0)
  }

  lemma OnePage(src: Source, o: Options, w: Walk, known: seq<Issue>)
    requires o.pageSize >= 1 && Totalled(w.tally, o.winner) && Explained(w.tally, known)
    ensures var next := WalkStep(src, o, w); var page := src.page(w.tally.asked, w.cursor, o.pageSize);
            && Totalled(next.tally, o.winner) && Explained(next.tally, known)
            && next.declared == Some(if w.declared.Some? then w.declared.value else page.total)
            && next.tally.listed == w.tally.listed + page.data
            && NewGeneral(w, next, page)
            && (!next.done ==> |next.tally.seen| <= 500 && page.nextCursor != 0)
  {
    var page := src.page(w.tally.asked, w.cursor, o.pageSize);
    var t0 := w.tally.(asked := w.tally.asked + 1);
    var t1 := if w.declared.Some? && page.total != w.declared.value then Flag(t0, PageTotalDrift, None) else t0;
    SameButGeneral(w.tally, t1, o.winner, known);
    TallyPageExplained(src, o.winner, t1, page.data, known);
    var next := WalkStep(src, o, w);
    SameButGeneral(TallyPage(src, o.winner, t1, page.data), next.tally, o.winner, known);
    hide TallyPage, Totalled, Explained;
  }

  lemma SameButGeneral(t: Tally, u: Tally, winner: Option<Address>, known: seq<Issue>)
    requires Totalled(t, winner) && Explained(t, known)
    requires u.(issues := t.issues, asked := t.asked) == t
    requires forall x: Issue :: x.bidder.Some? ==> (x in u.issues <==> x in t.issues)
    ensures Totalled(u, winner) && Explained(u, known)
  {
    hide HeldIn, OpenIn;
    forall x: Issue
      ensures TallyDefect(u, x) <==> TallyDefect(t, x)
    {
    }
    hide TallyDefect;
  }

  lemma MorePages(page: Page, rest: seq<Page>, total: int, listed: nat, code: IssueCode)
    requires |rest| >= 1
    ensures PageDefect([page] + rest, total, listed, code) <==>
            PageDefect(rest, total, listed, code) || (code == PageTotalDrift && page.total != total)
  {
    var pages := [page] + rest;
    assert pages[0] == page && forall k :: 0 <= k < |rest| ==> pages[k + 1] == rest[k];
  }

  lemma LastPage(page: Page, total: int, listed: nat, code: IssueCode)
    ensures PageDefect([page], total, listed, code) <==>
            || (code == PageTotalDrift && page.total != total)
            || (code == PageCountMismatch && listed > 500)
            || (code == CursorStalled && listed <= 500 && page.nextCursor != 0)
  {
    assert [page][0] == page;
  }

  lemma PagedLast(w: Walk, r: Walk, page: Page)
    requires r.declared == Some(if w.declared.Some? then w.declared.value else page.total)
    requires r.done && r.tally.listed == w.tally.listed + page.data && NewGeneral(w, r, page)
    ensures Paged(w, r, [page])
  {
    assert Listing([page]) == page.data by {
      assert [page][1..] == [];
    }
    forall code
      ensures PageDefect([page], r.declared.value, |r.tally.seen|, code) <==>
              || (code == PageTotalDrift && page.total != r.declared.value)
              || (code == PageCountMismatch && |r.tally.seen| > 500)
              || (code == CursorStalled && |r.tally.seen| <= 500 && page.nextCursor != 0)
    {
      LastPage(page, r.declared.value, |r.tally.seen|, code);
    }
    hide PageDefect, Listing;
  }

  lemma PagedMore(w: Walk, next: Walk, r: Walk, page: Page, rest: seq<Page>)
    requires |rest| >= 1 && Paged(next, r, rest)
    requires next.declared == Some(if w.declared.Some? then w.declared.value else page.total)
    requires !next.done && next.tally.listed == w.tally.listed + page.data && NewGeneral(w, next, page)
    ensures Paged(w, r, [page] + rest)
  {
    assert ([page] + rest)[1..] == rest;
    assert w.tally.listed + page.data + Listing(rest) == w.tally.listed + (page.data + Listing(rest));
    forall code
      ensures PageDefect([page] + rest, r.declared.value, |r.tally.seen|, code) <==>
              || PageDefect(rest, r.declared.value, |r.tally.seen|, code)
              || (code == PageTotalDrift && page.total != r.declared.value)
    {
      MorePages(page, rest, r.declared.value, |r.tally.seen|, code);
    }
    hide PageDefect;
  }

  lemma StepCounts(src: Source, o: Options, w: Walk)
    requires o.pageSize >= 1 && w.pages < Budget(o)
    ensures var next := WalkStep(src, o, w); !next.done ==> w.pages < next.pages < Budget(o)
  {
    hide TallyPage;
  }

  lemma {:induction false} WalkExplained(src: Source, o: Options, w: Walk, known: seq<Issue>)
    requires o.pageSize >= 1 && w.pages < Budget(o) && Totalled(w.tally, o.winner) && Explained(w.tally, known)
    ensures var r := WalkFrom(src, o, w);
            Totalled(r.tally, o.winner) && Explained(r.tally, known) && Paged(w, r, Trace(src, o, w))
    decreases Budget(o) - w.pages
  {
    hide Totalled, Explained, Budget, Paged, NewGeneral, WalkStep;
    OnePage(src, o, w, known);
    StepCounts(src, o, w);
    var next := WalkStep(src, o, w);
    var page := src.page(w.tally.asked, w.cursor, o.pageSize);
    if next.done {
      PagedLast(w, next, page);
      assert Trace(src, o, w) == [page];
    } else {
      WalkExplained(src, o, next, known);
      PagedMore(w, next, WalkFrom(src, o, next), page, Trace(src, o, next));
      assert Trace(src, o, w) == [page] + Trace(src, o, next);
    }
  }

  // ---- The report ------------------------------------------------------------------------------------------

  /** What an issue of the report stands for: a defect of the pages, the answers, the winner or the expected list. */
  ghost predicate Stands(o: Options, pages: seq<Page>, t: Tally, r: Report, x: Issue)
    requires |pages| >= 1
  {
    match x.code
    case DuplicateBidder => x.bidder.Some? && Twice(t.listed, x.bidder.value)
    case BidStateMissing => x.bidder.Some? && AnsweredBadly(t, BidStateMissing, x.bidder.value)
    case EscrowLocked => x.bidder.Some? && AnsweredBadly(t, EscrowLocked, x.bidder.value)
    case BidderAlreadySettled => x.bidder.Some? && AnsweredBadly(t, BidderAlreadySettled, x.bidder.value)
    case PageTotalDrift => x.bidder.None? && exists k :: 0 <= k < |pages| && pages[k].total != pages[0].total
    case CursorStalled => x.bidder.None? && |ToSet(t.listed)| <= 500 && pages[|pages| - 1].nextCursor != 0
    case PageCountMismatch => x.bidder.None? && (|ToSet(t.listed)| > 500 || |ToSet(t.listed)| != pages[0].total)
    case WinnerNotIndexed => x.bidder.Some? && x.bidder == o.winner && x.bidder.value !in t.listed
    case IndexMismatch =>
      o.expected.Some? && if x.bidder.None? then |ToSet(o.expected.value)| != |ToSet(t.listed)|
                          else x.bidder.value in o.expected.value && x.bidder.value !in t.listed
    case EscrowStranded => x.bidder.None? && r.stranded > 0
    case Known => false
  }

  lemma {:induction false} MissingAre(expected: seq<Address>, seen: seq<Address>, x: Issue)
    ensures x in MissingIssues(expected, seen) <==>
            x.code == IndexMismatch && x.bidder.Some? && x.bidder.value in expected && x.bidder.value !in seen
  {
    if expected != [] {
      var n := |expected| - 1;
      MissingAre(expected[..n], seen, x);
      assert forall b :: b in expected <==> b in expected[..n] || b == expected[n];
    }
  }

  lemma Sizes(seen: seq<Address>, listed: seq<Address>)
    requires SameMembers(seen, listed)
    ensures |ToSet(listed)| == |seen|
  {
    assert ToSet(seen) == ToSet(listed);
    NoDupCardinality(seen);
  }

  /** What the checks after the walk add. */
  ghost predicate Added(o: Options, w: Walk, x: Issue) {
    match x.code
    case WinnerNotIndexed => x.bidder.Some? && x.bidder == o.winner && x.bidder.value !in w.tally.listed
    case IndexMismatch =>
      o.expected.Some? && if x.bidder.None? then |ToSet(o.expected.value)| != |w.tally.seen|
                          else x.bidder.value in o.expected.value && x.bidder.value !in w.tally.listed
    case PageCountMismatch => x.bidder.None? && w.declared.Some? && |w.tally.seen| != w.declared.value
    case _ => false
  }

  lemma FinalIssuesAre(o: Options, w: Walk, x: Issue)
    requires SameMembers(w.tally.seen, w.tally.listed)
    ensures x in FinalIssues(o, w) <==> x in w.tally.issues || Added(o, w, x)
  {
    if o.expected.Some? {
      var expected := Dedup(o.expected.value);
      Sizes(expected, o.expected.value);
      MissingAre(expected, w.tally.seen, x);
    }
    hide NoDup, MissingIssues, Dedup;
  }

  /**
   * Whatever the source answers, the report is exactly this: beside the issues known before, one for each defect of
   * what was answered, and none without; and totals that are those of the answers, each bidder asked about once.
   */
  lemma ReportSays(src: Source, o: Options, x: Issue)
    requires 1 <= o.pageSize <= 100
    ensures var w := WalkFrom(src, o, Start(o)); var r := Prove(src, o);
            && (x in r.issues <==> x in o.issues || Stands(o, Trace(src, o, Start(o)), w.tally, r, x))
            && w.tally.listed == Listing(Trace(src, o, Start(o)))
            && Totalled(w.tally, o.winner) && r.bidders == |ToSet(w.tally.listed)|
            && r.escrowHeld == HeldIn(w.tally.answers) && r.payable == o.payable
            && r.refundable == OpenIn(w.tally.seen, w.tally.answers, o.winner, false)
            && r.winnerEscrow == OpenIn(w.tally.seen, w.tally.answers, o.winner, true)
  {
    NothingTallied(o);
    WalkExplained(src, o, Start(o), o.issues);
    hide WalkFrom, Trace, Explained, Totalled, HeldIn, OpenIn, Stands;
    var w, pages := WalkFrom(src, o, Start(o)), Trace(src, o, Start(o));
    WalkIssuesAre(o, w, pages, x);
    ReportIssuesAre(o, w, pages, x);
    assert Totalled(w.tally, o.winner);
    ReportTotalsAre(o, w);
    hide FinalIssues, Listing, ToSet;
  }

  /** The issues the walk ends with. */
  ghost predicate WalkHas(o: Options, w: Walk, pages: seq<Page>, x: Issue)
    requires |pages| >= 1 && w.declared.Some?
  {
    || x in o.issues
    || (if x.bidder.Some? then TallyDefect(w.tally, x)
        else PageDefect(pages, w.declared.value, |w.tally.seen|, x.code))
  }

  lemma WalkIssuesAre(o: Options, w: Walk, pages: seq<Page>, x: Issue)
    requires |pages| >= 1 && Explained(w.tally, o.issues) && Paged(Start(o), w, pages)
    ensures x in w.tally.issues <==> WalkHas(o, w, pages, x)
  {
    hide TallyDefect, PageDefect, Listing;
    assert x.bidder.None? ==> x == Issue(x.code, None);
  }

  lemma ReportIssuesAre(o: Options, w: Walk, pages: seq<Page>, x: Issue)
    requires |pages| >= 1 && Totalled(w.tally, o.winner) && w.declared == Some(pages[0].total)
    requires x in w.tally.issues <==> WalkHas(o, w, pages, x)
    ensures var r := Conclude(o, w); x in r.issues <==> x in o.issues || Stands(o, pages, w.tally, r, x)
  {
    FinalIssuesAre(o, w, x);
    Sizes(w.tally.seen, w.tally.listed);
    hide FinalIssues, Twice, AnsweredBadly, HeldIn, OpenIn, ToSet, SameMembers;
  }

  lemma ReportTotalsAre(o: Options, w: Walk)
    requires Totalled(w.tally, o.winner)
    ensures var r := Conclude(o, w);
            && r.bidders == |ToSet(w.tally.listed)| && r.escrowHeld == HeldIn(w.tally.answers) && r.payable == o.payable
            && r.refundable == OpenIn(w.tally.seen, w.tally.answers, o.winner, false)
            && r.winnerEscrow == OpenIn(w.tally.seen, w.tally.answers, o.winner, true)
  {
    Sizes(w.tally.seen, w.tally.listed);
    hide FinalIssues, HeldIn, OpenIn, ToSet, SameMembers;
  }

  lemma NothingTallied(o: Options)
    ensures Totalled(Start(o).tally, o.winner) && Explained(Start(o).tally, o.issues)
  {
  }

  // ---- Where the walk stops -------------------------------------------------------------------------------

  /**
   * The walk goes on past a page: at most 500 bidders so far, a cursor that advances and points at most at the 500th,
   * and pages left, by default one more than 500 bidders fill.
   */
  ghost predicate GoesOn(o: Options, page: Page, cursor: int, pages: nat, listed: nat) {
    && listed <= 500 && cursor < page.nextCursor <= 500
    && (if o.maxPages.Some? then pages < o.maxPages.value else (pages - 1) * o.pageSize < 500)
  }

  /** Page `i` of a walk that comes to it from `w`. */
  ghost predicate GoesOnAt(o: Options, w: Walk, pages: seq<Page>, i: nat)
    requires i < |pages|
  {
    GoesOn(o, pages[i], if i == 0 then w.cursor else pages[i - 1].nextCursor, w.pages + i + 1,
           |ToSet(w.tally.listed + Listing(pages[..i + 1]))|)
  }

  lemma TimesMore(a: int, b: int, m: int)
    requires a < b && m >= 1
    ensures a * m + m <= b * m
  {
    assert b * m == (b - a - 1) * m + a * m + m;
    assert (b - a - 1) * m >= 0;
  }

  lemma BudgetIs(pageSize: int, k: nat)
    requires pageSize >= 1
    ensures k < (ESCROW_MAX_BIDDERS + pageSize - 1) / pageSize <==> k * pageSize < 500
  {
    var q := (ESCROW_MAX_BIDDERS + pageSize - 1) / pageSize;
    QuotientBounds(ESCROW_MAX_BIDDERS + pageSize - 1, pageSize);
    if k < q {
      TimesMore(k, q, pageSize);
    } else if q < k {
      TimesMore(q, k, pageSize);
    }
  }

  lemma QuotientBounds(n: nat, m: int)
    requires m >= 1
    ensures n - m < n / m * m <= n
  {
  }

  lemma StepGoesOn(src: Source, o: Options, w: Walk, known: seq<Issue>)
    requires o.pageSize >= 1 && w.cursor >= 0 && Totalled(w.tally, o.winner) && Explained(w.tally, known)
    ensures var next := WalkStep(src, o, w); var page := src.page(w.tally.asked, w.cursor, o.pageSize);
            && next.tally.listed == w.tally.listed + page.data && next.pages == w.pages + 1
            && (!next.done <==> GoesOn(o, page, w.cursor, w.pages + 1, |ToSet(next.tally.listed)|))
            && (!next.done ==> next.cursor == page.nextCursor)
  {
    OnePage(src, o, w, known);
    Sizes(WalkStep(src, o, w).tally.seen, WalkStep(src, o, w).tally.listed);
    BudgetIs(o.pageSize, w.pages);
    hide TallyPage, ToSet, SameMembers, HeldIn, OpenIn, Explained, PageDefect;
  }

  /** One page earlier, page `i` of the rest is page `i + 1`. */
  lemma GoesOnShifts(o: Options, w: Walk, next: Walk, page: Page, rest: seq<Page>, i: nat)
    requires i < |rest| && next.cursor == page.nextCursor && next.pages == w.pages + 1
    requires next.tally.listed == w.tally.listed + page.data
    ensures GoesOnAt(o, w, [page] + rest, i + 1) <==> GoesOnAt(o, next, rest, i)
  {
    hide GoesOn, ToSet;
    var pages := [page] + rest;
    assert pages[..i + 2] == [page] + rest[..i + 1] && ([page] + rest[..i + 1])[1..] == rest[..i + 1];
    assert w.tally.listed + (page.data + Listing(rest[..i + 1])) == next.tally.listed + Listing(rest[..i + 1]);
  }

  lemma GoesOnFirst(o: Options, w: Walk, page: Page, rest: seq<Page>)
    ensures GoesOnAt(o, w, [page] + rest, 0)
       <==> GoesOn(o, page, w.cursor, w.pages + 1, |ToSet(w.tally.listed + page.data)|)
  {
    hide GoesOn, ToSet;
    assert ([page] + rest)[..1] == [page];
    assert Listing([page]) == page.data by {
      assert [page][1..] == [];
    }
  }

  /** The walk from `w` goes on past all of these pages but the last. */
  ghost predicate StopsAfter(o: Options, w: Walk, pages: seq<Page>) {
    forall i: nat :: i < |pages| ==> (GoesOnAt(o, w, pages, i) <==> i < |pages| - 1)
  }

  lemma {:induction false} WalkStops(src: Source, o: Options, w: Walk, known: seq<Issue>)
    requires o.pageSize >= 1 && w.pages < Budget(o) && w.cursor >= 0
    requires Totalled(w.tally, o.winner) && Explained(w.tally, known)
    ensures StopsAfter(o, w, Trace(src, o, w))
    decreases Budget(o) - w.pages
  {
    hide Totalled, Explained, Budget, PageDefect, WalkStep, GoesOn, GoesOnAt;
    OnePage(src, o, w, known);
    StepGoesOn(src, o, w, known);
    var next, page := WalkStep(src, o, w), src.page(w.tally.asked, w.cursor, o.pageSize);
    if next.done {
      GoesOnFirst(o, w, page, []);
      assert Trace(src, o, w) == [page] && [page] + [] == [page];
    } else {
      NextStart(src, o, w);
      WalkStops(src, o, next, known);
      var rest := Trace(src, o, next);
      assert Trace(src, o, w) == [page] + rest;
      GoesOnFirst(o, w, page, rest);
      forall i: nat | i < |[page] + rest|
        ensures GoesOnAt(o, w, [page] + rest, i) <==> i < |[page] + rest| - 1
      {
        if i > 0 {
          GoesOnShifts(o, w, next, page, rest, i - 1);
          assert GoesOnAt(o, next, rest, i - 1) <==> i - 1 < |rest| - 1;
        }
      }
    }
  }

  lemma NextStart(src: Source, o: Options, w: Walk)
    requires o.pageSize >= 1 && w.cursor >= 0 && w.pages < Budget(o) && !WalkStep(src, o, w).done
    ensures WalkStep(src, o, w).cursor >= 0 && WalkStep(src, o, w).pages < Budget(o)
  {
    hide TallyPage;
  }

  /** A walk from the start goes on past all of these pages but the last. */
  ghost predicate ReadsOn(o: Options, pages: seq<Page>) {
    forall i: nat :: i < |pages| ==>
      (i < |pages| - 1 <==>
        GoesOn(o, pages[i], if i == 0 then 0 else pages[i - 1].nextCursor, i + 1, |ToSet(Listing(pages[..i + 1]))|))
  }

  lemma FromStart(o: Options, pages: seq<Page>)
    requires StopsAfter(o, Start(o), pages)
    ensures ReadsOn(o, pages)
  {
    hide GoesOn, ToSet, Listing;
    forall i: nat | i < |pages|
      ensures GoesOnAt(o, Start(o), pages, i) <==>
              GoesOn(o, pages[i], if i == 0 then 0 else pages[i - 1].nextCursor, i + 1,
                     |ToSet(Listing(pages[..i + 1]))|)
    {
      assert [] + Listing(pages[..i + 1]) == Listing(pages[..i + 1]);
    }
  }

  /** For any answers, the walk reads on exactly past the pages that say to, and stops at the first that does not. */
  lemma StopsInTime(src: Source, o: Options)
    requires 1 <= o.pageSize <= 100
    ensures ReadsOn(o, Trace(src, o, Start(o)))
  {
    NothingTallied(o);
    WalkStops(src, o, Start(o), o.issues);
    FromStart(o, Trace(src, o, Start(o)));
    hide Trace, Totalled, Explained;
  }
}
