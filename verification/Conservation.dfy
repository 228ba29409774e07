/**
 * The off-chain escrow walk: it pages through the bidder index of a source it does not trust, answers
 * every bid state, and reports whether the pending operation accounts for all escrow held.
 */
module Conservation {
  import opened Prelude
  import opened RoundTypes

  const ESCROW_MAX_BIDDERS: nat := 500

  datatype IssueCode =
    | PageTotalDrift | DuplicateBidder | PageCountMismatch | CursorStalled | BidStateMissing
    | BidderAlreadySettled | EscrowLocked | IndexMismatch | WinnerNotIndexed | Known | EscrowStranded

  datatype Issue = Issue(code: IssueCode, bidder: Option<Address>)

  datatype Totals = Totals(escrowHeld: int, refundable: int, payable: int, winnerEscrow: int, issues: seq<Issue>)

  datatype Report = Report(
    bidders: nat, escrowHeld: int, refundable: int, payable: int, winnerEscrow: int,
    surplus: int, stranded: int, conserved: bool, issues: seq<Issue>)

  predicate IsEscrowConserved(t: Totals) {
    && |t.issues| == 0
    && t.escrowHeld >= 0 && t.refundable >= 0 && t.payable >= 0 && t.winnerEscrow >= 0
    && t.winnerEscrow >= t.payable
    && t.escrowHeld == t.refundable + t.payable + (t.winnerEscrow - t.payable)
  }

  /**
   * The report's verdict: conserved exactly when nothing was found wrong, nothing is negative, the
   * payout fits the winner's own escrow and nothing would stay locked.
   */
  function EvaluateEscrowConservation(t: Totals, bidders: nat): (r: Report)
    ensures r.escrowHeld == r.refundable + r.payable + r.surplus + r.stranded
    ensures r.conserved <==> |r.issues| == 0 && r.stranded == 0 && r.surplus >= 0
                             && r.refundable >= 0 && r.payable >= 0
  {
    var surplus := t.winnerEscrow - t.payable;
    var stranded := t.escrowHeld - (t.refundable + t.payable + surplus);
    var issues := if stranded > 0 then t.issues + [Issue(EscrowStranded, None)] else t.issues;
    Report(bidders, t.escrowHeld, t.refundable, t.payable, t.winnerEscrow, surplus, stranded, IsEscrowConserved(t),
        issues)
  }

  datatype Page = Page(data: seq<Address>, nextCursor: int, total: int)

  /** A source of pages and bid states: the answer to the n-th request may be anything at all. */
  datatype Source = Source(page: (nat, int, int) -> Page, bid: (nat, Address) -> Option<BidState>)

  datatype Options = Options(
    pageSize: int, payable: int, winner: Option<Address>, expected: Option<seq<Address>>,
    issues: seq<Issue>, maxPages: Option<int>)

  function MaxPages(o: Options): int
    requires o.pageSize >= 1
  {
    if o.maxPages.Some? then o.maxPages.value
    else (ESCROW_MAX_BIDDERS + o.pageSize - 1) / o.pageSize + 1
  }

  /** The walk's accumulators. `listed` and `answers` record what the source said so far. */
  datatype Tally = Tally(
    seen: seq<Address>, escrowHeld: int, refundable: int, winnerEscrow: int, issues: seq<Issue>,
    asked: nat, listed: seq<Address>, answers: seq<Option<BidState>>)

  function Flag(t: Tally, code: IssueCode, bidder: Option<Address>): Tally {
    t.(issues := t.issues + [Issue(code, bidder)])
  }

  function TallyBidder(src: Source, winner: Option<Address>, t: Tally, b: Address): Tally {
    var u := t.(listed := t.listed + [b]);
    if b in t.seen then Flag(u, DuplicateBidder, Some(b))
    else
      var state := src.bid(t.asked, b);
      var v := u.(seen := t.seen + [b], asked := t.asked + 1, answers := t.answers + [state]);
      if state.None? then Flag(v, BidStateMissing, Some(b))
      else if state.value.escrow < 0 then Flag(v, EscrowLocked, Some(b))
      else
        var e := state.value.escrow;
        var held := v.(escrowHeld := v.escrowHeld + e);
        if state.value.settled then Flag(held, BidderAlreadySettled, Some(b))
        else if winner == Some(b) then held.(winnerEscrow := held.winnerEscrow + e)
        else held.(refundable := held.refundable + e)
  }

  function TallyPage(src: Source, winner: Option<Address>, t: Tally, data: seq<Address>): Tally
    decreases |data|
  {
    if data == [] then t else TallyPage(src, winner, TallyBidder(src, winner, t, data[0]), data[1..])
  }

  datatype Walk = Walk(tally: Tally, declared: Option<int>, cursor: int, pages: nat, done: bool)

  /** One turn of the page loop: fetch, tally, then decide whether to go on. */
  function WalkStep(src: Source, o: Options, w: Walk): Walk
    requires o.pageSize >= 1
  {
    var page := src.page(w.tally.asked, w.cursor, o.pageSize);
    var t0 := w.tally.(asked := w.tally.asked + 1);
    var t1 := if w.declared.Some? && page.total != w.declared.value then Flag(t0, PageTotalDrift, None) else t0;
    var t := TallyPage(src, o.winner, t1, page.data);
    var declared := if w.declared.Some? then w.declared else Some(page.total);
    var pages := w.pages + 1;
    if |t.seen| > ESCROW_MAX_BIDDERS then Walk(Flag(t, PageCountMismatch, None), declared, w.cursor, pages, true)
    else if page.nextCursor == 0 then Walk(t, declared, w.cursor, pages, true)
    else if page.nextCursor <= w.cursor then Walk(Flag(t, CursorStalled, None), declared, w.cursor, pages, true)
    else if pages >= MaxPages(o) then Walk(Flag(t, CursorStalled, None), declared, w.cursor, pages, true)
    else if page.nextCursor > ESCROW_MAX_BIDDERS then
        Walk(Flag(t, CursorStalled, None), declared, w.cursor, pages, true)
    else Walk(t, declared, page.nextCursor, pages, false)
  }

  function Budget(o: Options): nat
    requires o.pageSize >= 1
  {
    if MaxPages(o) > 1 then MaxPages(o) else 1
  }

  function WalkFrom(src: Source, o: Options, w: Walk): (r: Walk)
    requires o.pageSize >= 1
    requires w.pages < Budget(o)
    ensures r.done && w.pages < r.pages <= Budget(o)
    decreases Budget(o) - w.pages
  {
    var next := WalkStep(src, o, w);
    if next.done then next else WalkFrom(src, o, next)
  }

  function Start(o: Options): Walk {
    Walk(Tally([], 0, 0, 0, o.issues, 0, [], []), None, 0, 0, false)
  }

  /** `new Set(s)`: first occurrences, in order. */
  function Dedup(s: seq<Address>): (d: seq<Address>)
    ensures forall a :: a in d <==> a in s
    ensures NoDup(d)
  {
    if s == [] then []
    else
      var d := Dedup(s[..|s| - 1]);
      if s[|s| - 1] in d then d else d + [s[|s| - 1]]
  }

  /** One issue for each expected bidder the walk did not see. */
  function MissingIssues(expected: seq<Address>, seen: seq<Address>): seq<Issue> {
    if expected == [] then []
    else
      var front := MissingIssues(expected[..|expected| - 1], seen);
      var last := expected[|expected| - 1];
      if last in seen then front else front + [Issue(IndexMismatch, Some(last))]
  }

  /** The checks made once the walk has stopped. */
  function FinalIssues(o: Options, w: Walk): seq<Issue> {
    var t := w.tally;
    var unlisted := o.winner.Some? && o.winner.value !in t.seen;
    var a := if unlisted then t.issues + [Issue(WinnerNotIndexed, o.winner)] else t.issues;
    var b := if o.expected.None? then a
             else
               var expected := Dedup(o.expected.value);
               var sized := if |expected| != |t.seen| then a + [Issue(IndexMismatch, None)] else a;
               sized + MissingIssues(expected, t.seen);
    if w.declared.Some? && |t.seen| != w.declared.value then b + [Issue(PageCountMismatch, None)] else b
  }

  function Conclude(o: Options, w: Walk): Report {
    var t := w.tally;
    EvaluateEscrowConservation(Totals(t.escrowHeld, t.refundable, o.payable, t.winnerEscrow, FinalIssues(o, w)),
        |t.seen|)
  }

  function Prove(src: Source, o: Options): Report {
    if o.pageSize < 1 || o.pageSize > 100 then
      EvaluateEscrowConservation(Totals(0, 0, o.payable, 0, o.issues + [Issue(CursorStalled, None)]), 0)
    else Conclude(o, WalkFrom(src, o, Start(o)))
  }

  // ---- The implementation -----------------------------------------------------------------

  /** The inner loop over one page. */
  method ReadPage(src: Source, winner: Option<Address>, start: Tally, data: seq<Address>) returns (t: Tally)
    ensures t == TallyPage(src, winner, start, data)
  {
    var seen, issues, asked := start.seen, start.issues, start.asked;
    var escrowHeld, refundable, winnerEscrow := start.escrowHeld, start.refundable, start.winnerEscrow;
    var listed, answers := start.listed, start.answers;
    for i := 0 to |data|
      invariant TallyPage(src, winner,
                Tally(seen, escrowHeld, refundable, winnerEscrow, issues, asked, listed, answers), data[i..])
             == TallyPage(src, winner, start, data)
    {
      assert data[i..][1..] == data[i + 1..];
      var bidder := data[i];
      listed := listed + [bidder];
      if bidder in seen {
        issues := issues + [Issue(DuplicateBidder, Some(bidder))];
        continue;
      }
      seen := seen + [bidder];
      var state := src.bid(asked, bidder);
      asked, answers := asked + 1, answers + [state];
      if state.None? {
        issues := issues + [Issue(BidStateMissing, Some(bidder))];
        continue;
      }
      if state.value.escrow < 0 {
        issues := issues + [Issue(EscrowLocked, Some(bidder))];
        continue;
      }
      escrowHeld := escrowHeld + state.value.escrow;
      if state.value.settled {
        issues := issues + [Issue(BidderAlreadySettled, Some(bidder))];
        continue;
      }
      if winner == Some(bidder) {
        winnerEscrow := winnerEscrow + state.value.escrow;
      } else {
        refundable := refundable + state.value.escrow;
      }
    }
    t := Tally(seen, escrowHeld, refundable, winnerEscrow, issues, asked, listed, answers);
  }

  /** Fetch one page and decide whether to go on. */
  method NextPage(src: Source, o: Options, w: Walk) returns (next: Walk)
    requires o.pageSize >= 1
    ensures next == WalkStep(src, o, w)
  {
    var t, declared := w.tally, w.declared;
    var page := src.page(t.asked, w.cursor, o.pageSize);
    t := t.(asked := t.asked + 1);
    var pages := w.pages + 1;
    if declared.None? {
      declared := Some(page.total);
    } else if page.total != declared.value {
      t := Flag(t, PageTotalDrift, None);
    }
    t := ReadPage(src, o.winner, t, page.data);
    if |t.seen| > ESCROW_MAX_BIDDERS {
      return Walk(Flag(t, PageCountMismatch, None), declared, w.cursor, pages, true);
    }
    if page.nextCursor == 0 {
      return Walk(t, declared, w.cursor, pages, true);
    }
    if page.nextCursor <= w.cursor || pages >= MaxPages(o) || page.nextCursor > ESCROW_MAX_BIDDERS {
      return Walk(Flag(t, CursorStalled, None), declared, w.cursor, pages, true);
    }
    next := Walk(t, declared, page.nextCursor, pages, false);
  }

  /** The loop over the expected bidders. */
  method FlagMissing(expected: seq<Address>, seen: seq<Address>) returns (issues: seq<Issue>)
    ensures issues == MissingIssues(expected, seen)
  {
    issues := [];
    for i := 0 to |expected|
      invariant issues == MissingIssues(expected[..i], seen)
    {
      assert expected[..i + 1][..i] == expected[..i];
      if expected[i] !in seen {
        issues := issues + [Issue(IndexMismatch, Some(expected[i]))];
      }
    }
    assert expected[..|expected|] == expected;
  }

  /** `proveEscrowConservationFromPages`, together with the number of pages it asked for. */
  method ProveEscrowConservationFromPages(src: Source, o: Options) returns (report: Report, pages: nat)
    ensures report == Prove(src, o)
    ensures o.pageSize >= 1 ==> pages <= Budget(o)
  {
    if o.pageSize < 1 || o.pageSize > 100 {
      report := EvaluateEscrowConservation(Totals(0, 0, o.payable, 0, o.issues + [Issue(CursorStalled, None)]), 0);
      return report, 0;
    }
    var w := Start(o);
    while !w.done
      invariant w.pages <= Budget(o) && (!w.done ==> w.pages < Budget(o))
      invariant WalkFrom(src, o, Start(o)) == if w.done then w else WalkFrom(src, o, w)
      decreases Budget(o) - w.pages + (if w.done then 0 else 1)
    {
      w := NextPage(src, o, w);
    }
    var t, issues := w.tally, w.tally.issues;
    if o.winner.Some? && o.winner.value !in t.seen {
      issues := issues + [Issue(WinnerNotIndexed, o.winner)];
    }
    if o.expected.Some? {
      var expected := Dedup(o.expected.value);
      if |expected| != |t.seen| {
        issues := issues + [Issue(IndexMismatch, None)];
      }
      var missing := FlagMissing(expected, t.seen);
      issues := issues + missing;
    }
    if w.declared.Some? && |t.seen| != w.declared.value {
      issues := issues + [Issue(PageCountMismatch, None)];
    }
    report := EvaluateEscrowConservation(Totals(t.escrowHeld, t.refundable, o.payable, t.winnerEscrow, issues),
        |t.seen|);
    pages := w.pages;
  }
}
