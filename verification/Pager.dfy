/** `SubRosaClient.bidders`: a lazy walk over bidder pages that trusts nothing it is sent. */
module Pager {
  import opened Prelude
  import opened RoundTypes

  const PAGE_SIZE: nat := 100
  const CURSOR_BYTES: nat := 41

  /** JavaScript values as they arrive: a number may not be an integer, a field may have the wrong type. */
  datatype Number = Integer(n: int) | NotInteger
  datatype Cursor = Absent | Bytes(b: seq<byte>) | NotBytes
  datatype Page = Page(data: Option<seq<Address>>, total: Number, hasMore: Option<bool>, nextCursor: Cursor)

  datatype PagerError = InvalidPage | RepeatedBidder(who: Address) | RepeatedCursor

  predicate ShapeOk(page: Page, total: Number) {
    && page.total.Integer? && page.total.n >= 0 && page.total == total
    && page.data.Some? && |page.data.value| <= PAGE_SIZE
    && page.hasMore.Some? && page.hasMore.value == !page.nextCursor.Absent?
  }

  /** The first address of `data` already in `seen` or repeated within `data`. */
  function FirstRepeat(seen: seq<Address>, data: seq<Address>): (r: Option<Address>)
    ensures r == None ==> (NoDup(seen) ==> NoDup(seen + data))
    decreases |data|
  {
    if data == [] then
      assert seen + data == seen;
      None
    else if data[0] in seen then Some(data[0])
    else
      assert seen + data == seen + [data[0]] + data[1..];
      FirstRepeat(seen + [data[0]], data[1..])
  }

  /** All checks on one page, in the order they are made; `None` accepts it. */
  function Reject(page: Page, total: Number, seen: seq<Address>, cursors: set<seq<byte>>): Option<PagerError> {
    if !ShapeOk(page, total) then Some(InvalidPage)
    else
      var data, more := page.data.value, page.hasMore.value;
      var repeat := FirstRepeat(seen, data);
      if repeat.Some? then Some(RepeatedBidder(repeat.value))
      else
        var count := |seen| + |data|;
        var fits := count <= total.n && (if more then |data| > 0 && count < total.n else count == total.n);
        if !fits then Some(InvalidPage)
        else if more && (!page.nextCursor.Bytes? || |page.nextCursor.b| != CURSOR_BYTES) then Some(InvalidPage)
        else if more && page.nextCursor.b in cursors then Some(RepeatedCursor)
        else None
  }

  /** What a consumer of the generator observes: the addresses yielded, the error if any, the requests made. */
  datatype Outcome = Outcome(yielded: seq<Address>, error: Option<PagerError>, requests: nat)

  function Left(total: Option<Number>, seen: seq<Address>): nat {
    match total
    case Some(Integer(n)) => if n > |seen| then n - |seen| else 0
    case _ => 0
  }

  /** The walk from request `k` on; `page` answers the k-th request in any way it likes. */
  function Walk(page: nat -> Page, k: nat, total: Option<Number>, seen: seq<Address>, cursors: set<seq<byte>>): Outcome
    decreases if total.None? then 1 else 0, Left(total, seen)
  {
    var p := page(k);
    var t := if total.Some? then total.value else p.total;
    var error := Reject(p, t, seen, cursors);
    if error.Some? then Outcome(seen, error, k + 1)
    else if !p.hasMore.value then Outcome(seen + p.data.value, None, k + 1)
    else Walk(page, k + 1, Some(t), seen + p.data.value, cursors + {p.nextCursor.b})
  }

  /** The page checks as the generator makes them, address by address. */
  method CheckPage(page: Page, total: Number, seen: seq<Address>,
          cursors: set<seq<byte>>) returns (error: Option<PagerError>)
    ensures error == Reject(page, total, seen, cursors)
  {
    if !ShapeOk(page, total) {
      return Some(InvalidPage);
    }
    var data, more := page.data.value, page.hasMore.value;
    var known := seen;
    for i := 0 to |data|
      invariant known == seen + data[..i]
      invariant FirstRepeat(known, data[i..]) == FirstRepeat(seen, data)
    {
      assert data[i..][1..] == data[i + 1..];
      if data[i] in known {
        return Some(RepeatedBidder(data[i]));
      }
      known := known + [data[i]];
    }
    if |known| > total.n || (more && (|data| == 0 || |known| >= total.n)) || (!more && |known| != total.n) {
      return Some(InvalidPage);
    }
    if more {
      if !page.nextCursor.Bytes? || |page.nextCursor.b| != CURSOR_BYTES {
        return Some(InvalidPage);
      }
      if page.nextCursor.b in cursors {
        return Some(RepeatedCursor);
      }
    }
    error := None;
  }

  /** The generator, run to its end by a consumer that collects what is yielded. */
  method Bidders(page: nat -> Page) returns (yielded: seq<Address>, error: Option<PagerError>, requests: nat)
    ensures Outcome(yielded, error, requests) == Walk(page, 0, None, [], {})
  {
    var total: Option<Number> := None;
    var cursors: set<seq<byte>> := {};
    yielded, error, requests := [], None, 0;
    while true
      invariant Walk(page, requests, total, yielded, cursors) == Walk(page, 0, None, [], {})
      decreases if total.None? then 1 else 0, Left(total, yielded)
    {
      var p := page(requests);
      requests := requests + 1;
      if total.None? {
        total := Some(p.total);
      }
      error := CheckPage(p, total.value, yielded, cursors);
      if error.Some? {
        return;
      }
      ghost var before := yielded;
      for i := 0 to |p.data.value|
        invariant yielded == before + p.data.value[..i]
      {
        yielded := yielded + [p.data.value[i]];
      }
      assert yielded == before + p.data.value;
      if !p.hasMore.value {
        return;
      }
      cursors := cursors + {p.nextCursor.b};
    }
  }

  // ---- Against any source -----------------------------------------------------------------

  /** The contents of pages `k` to `m`, whole. */
  ghost function Pages(page: nat -> Page, k: nat, m: nat): seq<Address>
    decreases m
  {
    if m <= k then [] else Pages(page, k, m - 1) + (if page(m - 1).data.Some? then page(m - 1).data.value else [])
  }

  lemma {:induction false} PagesFromFront(page: nat -> Page, k: nat, m: nat)
    requires k < m && page(k).data.Some?
    ensures Pages(page, k, m) == page(k).data.value + Pages(page, k + 1, m)
    decreases m
  {
    if k + 1 < m {
      PagesFromFront(page, k, m - 1);
    }
  }

  /** How far the walk can still go before the declared total stops it. */
  ghost function Cap(total: Number, seen: seq<Address>): int {
    if total.Integer? && total.n > |seen| + 1 then total.n - |seen| else 1
  }

  lemma AcceptedSays(p: Page, t: Number, seen: seq<Address>, cursors: set<seq<byte>>)
    requires NoDup(seen) && Reject(p, t, seen, cursors) == None
    ensures p.data.Some? && p.hasMore.Some? && t.Integer? && NoDup(seen + p.data.value)
    ensures if p.hasMore.value then p.nextCursor.Bytes? && |p.data.value| > 0 && |seen| + |p.data.value| < t.n
            else |seen| + |p.data.value| == t.n
  {
  }

  /** One turn of the walk. */
  lemma WalkTurn(page: nat -> Page, k: nat, total: Option<Number>, seen: seq<Address>, cursors: set<seq<byte>>)
    ensures var p := page(k);
            var t := if total.Some? then total.value else p.total;
            var error := Reject(p, t, seen, cursors);
            Walk(page, k, total, seen, cursors)
            == if error.Some? then Outcome(seen, error, k + 1)
               else if !p.hasMore.value then Outcome(seen + p.data.value, None, k + 1)
               else Walk(page, k + 1, Some(t), seen + p.data.value, cursors + {p.nextCursor.b})
  {
    hide Reject;
  }

  /** What the outcome `r` of a walk from request `k`, with `seen` yielded before it, says. */
  ghost predicate Says(page: nat -> Page, k: nat, t: Number, seen: seq<Address>, r: Outcome) {
    && k < r.requests <= k + Cap(t, seen)
    && NoDup(r.yielded)
    && r.yielded == seen + Pages(page, k, if r.error.Some? then r.requests - 1 else r.requests)
    && (r.error == None ==> t == Integer(|r.yielded|))
  }

  /** A turn that accepted a page adds that page to what the rest of the walk says. */
  lemma SaysTurn(page: nat -> Page, k: nat, t: Number, seen: seq<Address>, r: Outcome)
    requires page(k).data.Some? && Says(page, k + 1, t, seen + page(k).data.value, r)
    requires t.Integer? && |page(k).data.value| > 0 && |seen| + |page(k).data.value| < t.n
    ensures Says(page, k, t, seen, r)
  {
    hide NoDup, Pages;
    var data, m := page(k).data.value, if r.error.Some? then r.requests - 1 else r.requests;
    PagesFromFront(page, k, m);
    assert seen + data + Pages(page, k + 1, m) == seen + (data + Pages(page, k + 1, m));
  }

  lemma SaysLast(page: nat -> Page, k: nat, t: Number, seen: seq<Address>, error: Option<PagerError>)
    requires NoDup(seen)
    ensures error.Some? ==> Says(page, k, t, seen, Outcome(seen, error, k + 1))
    ensures page(k).data.Some? && NoDup(seen + page(k).data.value) && t == Integer(|seen| + |page(k).data.value|) ==>
              Says(page, k, t, seen, Outcome(seen + page(k).data.value, None, k + 1))
  {
    hide NoDup;
    assert seen + [] == seen;
    assert Pages(page, k, k) == [];
    if page(k).data.Some? {
      assert [] + page(k).data.value == page(k).data.value;
      assert Pages(page, k, k + 1) == page(k).data.value;
    }
  }

  lemma {:induction false} WalkSays(page: nat -> Page, k: nat, total: Option<Number>, seen: seq<Address>,
          cursors: set<seq<byte>>)
    requires NoDup(seen)
    ensures Says(page, k, if total.Some? then total.value else page(k).total, seen, Walk(page, k, total, seen, cursors))
    decreases if total.None? then 1 else 0, Left(total, seen)
  {
    var p := page(k);
    var t := if total.Some? then total.value else p.total;
    var error := Reject(p, t, seen, cursors);
    WalkTurn(page, k, total, seen, cursors);
    SaysLast(page, k, t, seen, error);
    if error == None {
      AcceptedSays(p, t, seen, cursors);
      if p.hasMore.value {
        WalkSays(page, k + 1, Some(t), seen + p.data.value, cursors + {p.nextCursor.b});
        SaysTurn(page, k, t, seen, Walk(page, k + 1, Some(t), seen + p.data.value, cursors + {p.nextCursor.b}));
      }
    }
    hide Reject, NoDup, Walk, Says;
  }

  /**
   * Against any source the generator ends, after at most one request per declared bidder (and at
   * least one). What it yielded is always whole accepted pages without repetition, never part of a
   * rejected one; and if it ends without an error it yielded exactly the declared number.
   */
  lemma HostilePagesCannotFool(page: nat -> Page)
    ensures var r := Walk(page, 0, None, [], {}); var t := page(0).total;
            && 1 <= r.requests <= (if t.Integer? && t.n > 1 then t.n else 1)
            && NoDup(r.yielded)
            && r.yielded == Pages(page, 0, if r.error.Some? then r.requests - 1 else r.requests)
            && (r.error == None ==> t == Integer(|r.yielded|))
  {
    WalkSays(page, 0, None, [], {});
    var r := Walk(page, 0, None, [], {});
    assert forall s: seq<Address> :: [] + s == s;
  }

  /** The cursors of pages `k` to `m`. */
  ghost function CursorsOf(page: nat -> Page, k: nat, m: nat): set<seq<byte>> {
    set i: nat | k <= i < m && page(i).nextCursor.Bytes? :: page(i).nextCursor.b
  }

  /** Page `i` of a walk from page `k` on, as the checks meet it: after the pages before it. */
  ghost function Verdict(page: nat -> Page, k: nat, i: nat, t: Number, seen: seq<Address>, cursors: set<seq<byte>>)
    : Option<PagerError>
  {
    Reject(page(i), t, seen + Pages(page, k, i), cursors + CursorsOf(page, k, i))
  }

  lemma VerdictFromFront(page: nat -> Page, k: nat, i: nat, t: Number, seen: seq<Address>, cursors: set<seq<byte>>)
    requires k < i && page(k).data.Some? && page(k).nextCursor.Bytes?
    ensures Verdict(page, k, i, t, seen, cursors)
         == Verdict(page, k + 1, i, t, seen + page(k).data.value, cursors + {page(k).nextCursor.b})
  {
    hide Reject, Pages;
    PagesFromFront(page, k, i);
    assert seen + page(k).data.value + Pages(page, k + 1, i) == seen + (page(k).data.value + Pages(page, k + 1, i));
    assert CursorsOf(page, k, i) == {page(k).nextCursor.b} + CursorsOf(page, k + 1, i);
    assert cursors + ({page(k).nextCursor.b} + CursorsOf(page, k + 1, i))
        == cursors + {page(k).nextCursor.b} + CursorsOf(page, k + 1, i);
  }

  lemma VerdictAtOnce(page: nat -> Page, k: nat, t: Number, seen: seq<Address>, cursors: set<seq<byte>>)
    ensures Verdict(page, k, k, t, seen, cursors) == Reject(page(k), t, seen, cursors)
  {
    hide Reject;
    assert seen + Pages(page, k, k) == seen && cursors + CursorsOf(page, k, k) == cursors;
  }

  /** The walk goes on past every page that is accepted and promises more, and stops at the first that is not. */
  ghost predicate Stops(page: nat -> Page, k: nat, t: Number, seen: seq<Address>, cursors: set<seq<byte>>, r: Outcome) {
    && r.requests > k
    && (forall i :: k <= i < r.requests - 1 ==>
          Verdict(page, k, i, t, seen, cursors) == None && page(i).hasMore == Some(true))
    && r.error == Verdict(page, k, r.requests - 1, t, seen, cursors)
    && (r.error == None ==> page(r.requests - 1).hasMore == Some(false))
  }

  lemma {:induction false} WalkStops(page: nat -> Page, k: nat, total: Option<Number>, seen: seq<Address>,
          cursors: set<seq<byte>>)
    requires NoDup(seen)
    ensures Stops(page, k, if total.Some? then total.value else page(k).total, seen, cursors,
                  Walk(page, k, total, seen, cursors))
    decreases if total.None? then 1 else 0, Left(total, seen)
  {
    hide Reject, NoDup, Walk, Verdict, ShapeOk;
    var p := page(k);
    var t := if total.Some? then total.value else p.total;
    var error := Reject(p, t, seen, cursors);
    WalkTurn(page, k, total, seen, cursors);
    VerdictAtOnce(page, k, t, seen, cursors);
    if error == None {
      AcceptedSays(p, t, seen, cursors);
      if p.hasMore.value {
        var r := Walk(page, k + 1, Some(t), seen + p.data.value, cursors + {p.nextCursor.b});
        WalkStops(page, k + 1, Some(t), seen + p.data.value, cursors + {p.nextCursor.b});
        forall i | k < i < r.requests
          ensures Verdict(page, k, i, t, seen, cursors)
               == Verdict(page, k + 1, i, t, seen + p.data.value, cursors + {p.nextCursor.b})
        {
          VerdictFromFront(page, k, i, t, seen, cursors);
        }
      }
    }
  }

  /**
   * Where the generator stops, and with what: at the first page that fails its checks or promises no more, each page
   * checked against the first total, the addresses of the pages before it and their cursors.
   */
  lemma StopsAtFirstFlaw(page: nat -> Page)
    ensures var r := Walk(page, 0, None, [], {}); var t := page(0).total;
            && r.requests > 0
            && (forall i :: 0 <= i < r.requests - 1 ==>
                  && Reject(page(i), t, Pages(page, 0, i), CursorsOf(page, 0, i)) == None
                  && page(i).hasMore == Some(true))
            && r.error == Reject(page(r.requests - 1), t, Pages(page, 0, r.requests - 1),
                                 CursorsOf(page, 0, r.requests - 1))
            && (r.error == None ==> page(r.requests - 1).hasMore == Some(false))
  {
    hide Reject, Verdict, Walk, Pages, CursorsOf, NoDup;
    NothingSeen();
    WalkStops(page, 0, None, [], {});
    var r, t := Walk(page, 0, None, [], {}), page(0).total;
    forall i: nat | i < r.requests
      ensures Verdict(page, 0, i, t, [], {}) == Reject(page(i), t, Pages(page, 0, i), CursorsOf(page, 0, i))
    {
      VerdictFromNothing(page, i, t);
    }
  }

  lemma NothingSeen()
    ensures NoDup<Address>([])
  {
  }

  lemma VerdictFromNothing(page: nat -> Page, i: nat, t: Number)
    ensures Verdict(page, 0, i, t, [], {}) == Reject(page(i), t, Pages(page, 0, i), CursorsOf(page, 0, i))
  {
    hide Reject, Pages, CursorsOf;
    assert [] + Pages(page, 0, i) == Pages(page, 0, i) && {} + CursorsOf(page, 0, i) == CursorsOf(page, 0, i);
  }

  /** The reason given for rejecting a page is true of it. */
  lemma RefusalsAreTrue(page: Page, total: Number, seen: seq<Address>, cursors: set<seq<byte>>)
    requires NoDup(seen)
    ensures match Reject(page, total, seen, cursors)
            case None => true
            case Some(RepeatedBidder(who)) =>
              && ShapeOk(page, total)
              && (exists i :: 0 <= i < |page.data.value| && page.data.value[i] == who
                    && (who in seen || who in page.data.value[..i]))
            case Some(RepeatedCursor) => page.nextCursor.Bytes? && page.nextCursor.b in cursors
            case Some(InvalidPage) =>
              ShapeOk(page, total) ==>
                && NoDup(seen + page.data.value)
                && var count := |seen| + |page.data.value|;
                   || (page.hasMore.value && (page.data.value == [] || count >= total.n || !page.nextCursor.Bytes?
                                              || |page.nextCursor.b| != 41))
                   || (!page.hasMore.value && count != total.n)
  {
    if ShapeOk(page, total) && FirstRepeat(seen, page.data.value).Some? {
      RepeatIsThere(seen, page.data.value);
    }
    hide NoDup, FirstRepeat;
  }

  lemma {:induction false} RepeatIsThere(seen: seq<Address>, data: seq<Address>)
    requires FirstRepeat(seen, data).Some?
    ensures var who := FirstRepeat(seen, data).value;
            exists i :: 0 <= i < |data| && data[i] == who && (who in seen || who in data[..i])
    decreases |data|
  {
    if data[0] !in seen {
      RepeatIsThere(seen + [data[0]], data[1..]);
      var who := FirstRepeat(seen, data).value;
      var i :| 0 <= i < |data[1..]| && data[1..][i] == who && (who in seen + [data[0]] || who in data[1..][..i]);
      assert data[i + 1] == who && data[..i + 1] == [data[0]] + data[1..][..i];
    } else {
      assert data[0] == FirstRepeat(seen, data).value;
    }
  }

  lemma {:induction false} NoRepeat(seen: seq<Address>, data: seq<Address>)
    requires NoDup(seen + data)
    ensures FirstRepeat(seen, data) == None
    decreases |data|
  {
    if data != [] {
      assert (seen + data)[|seen|] == data[0];
      assert forall i :: 0 <= i < |seen| ==> (seen + data)[i] == seen[i];
      assert seen + data == seen + [data[0]] + data[1..];
      NoRepeat(seen + [data[0]], data[1..]);
    }
  }

  /**
   * An accepted page, exactly: the total declared first, a non-negative integer; at most 100 addresses, none seen
   * before; and either more to come, with a new 41-byte cursor, something on the page and the total not yet reached,
   * or nothing more, no cursor, and the total just reached.
   */
  lemma AcceptsIff(page: Page, total: Number, seen: seq<Address>, cursors: set<seq<byte>>)
    requires NoDup(seen)
    ensures Reject(page, total, seen, cursors) == None <==>
            && page.total == total && total.Integer? && total.n >= 0
            && page.data.Some? && |page.data.value| <= 100 && NoDup(seen + page.data.value)
            && var count := |seen| + |page.data.value|;
               || (page.hasMore == Some(true) && page.nextCursor.Bytes? && |page.nextCursor.b| == 41
                   && page.nextCursor.b !in cursors && |page.data.value| > 0 && count < total.n)
               || (page.hasMore == Some(false) && page.nextCursor.Absent? && count == total.n)
  {
    if page.data.Some? && NoDup(seen + page.data.value) {
      NoRepeat(seen, page.data.value);
    }
    hide NoDup, FirstRepeat;
  }

  // ---- Against an honest source ------------------------------------------------------------

  /** The k-th page of an index, with opaque tokens as cursors; past the end there is nothing. */
  function HonestPage(bidders: seq<Address>, token: nat -> seq<byte>, k: nat): Page {
    if (k + 1) * PAGE_SIZE < |bidders| then
      Page(Some(bidders[k * PAGE_SIZE..(k + 1) * PAGE_SIZE]), Integer(|bidders|), Some(true), Bytes(token(k)))
    else if k * PAGE_SIZE <= |bidders| then
        Page(Some(bidders[k * PAGE_SIZE..]), Integer(|bidders|), Some(false), Absent)
    else Page(Some([]), Integer(|bidders|), Some(false), Absent)
  }

  /** The cursors of an index of `n` bidders are distinct 41-byte strings. */
  ghost predicate TokensOk(token: nat -> seq<byte>, n: nat) {
    && (forall k: nat :: k * PAGE_SIZE <= n ==> |token(k)| == CURSOR_BYTES)
    && (forall j: nat, k: nat :: j < k && k * PAGE_SIZE <= n ==> token(j) != token(k))
  }

  ghost predicate Honest(page: nat -> Page, bidders: seq<Address>, token: nat -> seq<byte>) {
    && NoDup(bidders) && TokensOk(token, |bidders|)
    && (forall k: nat :: k * PAGE_SIZE <= |bidders| ==> page(k) == HonestPage(bidders, token, k))
  }

  function SampleToken(k: nat): seq<byte> {
    seq(CURSOR_BYTES, _ => k % 256)
  }

  /** Cursors a contract can really hand out: 256 pages are more than the largest index needs. */
  lemma SampleTokensOk(n: nat)
    requires n <= MAX_BIDDERS
    ensures TokensOk(SampleToken, n)
  {
    forall j: nat, k: nat | j < k && k * PAGE_SIZE <= n
      ensures SampleToken(j) != SampleToken(k)
    {
      assert SampleToken(j)[0] == j && SampleToken(k)[0] == k;
    }
  }

  /** Cursors good for the largest index the contract keeps. */
  type Tokens = t: nat -> seq<byte> | TokensOk(t, MAX_BIDDERS) witness (SampleTokensOk(MAX_BIDDERS); SampleToken)

  /** Every page of an honest source passes the checks. */
  lemma HonestAccepted(bidders: seq<Address>, token: nat -> seq<byte>, k: nat, cursors: set<seq<byte>>)
    requires NoDup(bidders) && TokensOk(token, |bidders|)
    requires k * PAGE_SIZE <= |bidders| && (k > 0 ==> k * PAGE_SIZE < |bidders|) && token(k) !in cursors
    ensures var p := HonestPage(bidders, token, k); var seen := bidders[..k * PAGE_SIZE];
            && Reject(p, Integer(|bidders|), seen, cursors) == None
            && p.data.Some? && p.hasMore == Some((k + 1) * PAGE_SIZE < |bidders|) && p.total == Integer(|bidders|)
            && (p.hasMore.value ==> p.nextCursor == Bytes(token(k)))
            && seen + p.data.value == if p.hasMore.value then bidders[..(k + 1) * PAGE_SIZE] else bidders
  {
    var p, seen := HonestPage(bidders, token, k), bidders[..k * PAGE_SIZE];
    var m := if p.hasMore.value then (k + 1) * PAGE_SIZE else |bidders|;
    assert seen + p.data.value == bidders[..m];
    assert bidders[..|bidders|] == bidders;
    NoRepeat(seen, p.data.value);
    hide FirstRepeat, NoDup;
  }

  lemma {:induction false} HonestWalk(page: nat -> Page, bidders: seq<Address>, token: nat -> seq<byte>, k: nat,
                                      total: Option<Number>, cursors: set<seq<byte>>)
    requires Honest(page, bidders, token)
    requires k * PAGE_SIZE <= |bidders| && (total == None || total == Some(Integer(|bidders|)))
    requires k > 0 ==> k * PAGE_SIZE < |bidders|
    requires forall c :: c in cursors ==> exists j: nat :: j < k && c == token(j)
    ensures var r := Walk(page, k, total, bidders[..k * PAGE_SIZE], cursors); r.yielded == bidders && r.error == None
    decreases |bidders| - k * PAGE_SIZE
  {
    assert token(k) !in cursors;
    var seen := bidders[..k * PAGE_SIZE];
    HonestAccepted(bidders, token, k, cursors);
    WalkTurn(page, k, total, seen, cursors);
    hide Reject, Walk, NoDup;
    if HonestPage(bidders, token, k).hasMore.value {
      HonestWalk(page, bidders, token, k + 1, Some(Integer(|bidders|)), cursors + {token(k)});
    }
  }

  /** From an honest source the generator yields the whole index, in order, without error. */
  lemma HonestSourceYieldsIndex(page: nat -> Page, bidders: seq<Address>, token: nat -> seq<byte>)
    requires Honest(page, bidders, token)
    ensures var r := Walk(page, 0, None, [], {}); r.yielded == bidders && r.error == None
  {
    HonestWalk(page, bidders, token, 0, None, {});
    assert bidders[..0] == [];
  }
}
