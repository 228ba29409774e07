/** The keeper's walk over the bidder pages of a chain that moves between one page and the next. */
module KeeperBidders {
  import opened Prelude
  import opened RoundTypes
  import opened RoundInvariant
  import opened Runs
  import opened Progress
  import opened Interleaving
  import Pager

  ghost predicate Indexes(s: State, rid: nat, bidders: seq<Address>) {
    && rid in s.cells && s.cells[rid].round.status != Open && s.cells[rid].round.bidders == bidders
    && NoDup(bidders) && |bidders| <= MAX_BIDDERS
  }

  lemma SoundIndex(s: State, rid: nat)
    requires Inv(s) && rid in s.cells && s.cells[rid].round.status != Open
    ensures Indexes(s, rid, s.cells[rid].round.bidders)
  {
    assert IndexMatches(s.cells[rid]);
  }

  /** Past Open the index is frozen, whatever others do. */
  lemma IndexFollows(s: State, t: State, rid: nat, bidders: seq<Address>)
    requires Inv(s) && Follows(s, t) && Indexes(s, rid, bidders)
    ensures Inv(t) && Indexes(t, rid, bidders)
  {
    hide Inv, Follows;
    FollowsFacts(s, t);
  }

  /** Cursors good for the largest index are good for a smaller one. */
  lemma TokensCover(token: Pager.Tokens, bidders: seq<Address>)
    requires |bidders| <= MAX_BIDDERS
    ensures Pager.TokensOk(token, |bidders|)
  {
  }

  ghost predicate AllEarlier(cursors: set<seq<byte>>, token: nat -> seq<byte>, k: nat) {
    forall c :: c in cursors ==> exists j: nat :: j < k && c == token(j)
  }

  lemma NewCursor(cursors: set<seq<byte>>, token: Pager.Tokens, k: nat, n: nat)
    requires AllEarlier(cursors, token, k) && k * Pager.PAGE_SIZE <= n && Pager.TokensOk(token, n)
    ensures token(k) !in cursors && AllEarlier(cursors + {token(k)}, token, k + 1)
  {
  }

  /** How far the walk over `bidders` is: `k` whole pages accepted. */
  ghost predicate Walked(bidders: seq<Address>, token: nat -> seq<byte>, k: nat, total: Option<Pager.Number>,
                         seen: seq<Address>, cursors: set<seq<byte>>)
  {
    && k * Pager.PAGE_SIZE <= |bidders| && (k > 0 ==> k * Pager.PAGE_SIZE < |bidders|)
    && seen == bidders[..k * Pager.PAGE_SIZE] && AllEarlier(cursors, token, k)
    && (total == None || total == Some(Pager.Integer(|bidders|)))
  }

  /** One more page of an honest index: it is accepted, and either the walk goes on or it has the whole index. */
  lemma WalkedOn(bidders: seq<Address>, token: Pager.Tokens, k: nat, total: Option<Pager.Number>,
                 seen: seq<Address>, cursors: set<seq<byte>>)
    requires NoDup(bidders) && |bidders| <= MAX_BIDDERS && Walked(bidders, token, k, total, seen, cursors)
    ensures var p := Pager.HonestPage(bidders, token, k); var t := Pager.Integer(|bidders|);
            && p.total == t && Pager.Reject(p, t, seen, cursors) == None && p.data.Some? && p.hasMore.Some?
            && (!p.hasMore.value ==> seen + p.data.value == bidders)
            && (total == None || total == Some(t))
            && (p.hasMore.value ==>
                  && p.nextCursor.Bytes? && (k + 1) * Pager.PAGE_SIZE < |bidders|
                  && Walked(bidders, token, k + 1, Some(t), seen + p.data.value, cursors + {p.nextCursor.b}))
  {
    TokensCover(token, bidders);
    NewCursor(cursors, token, k, |bidders|);
    Pager.HonestAccepted(bidders, token, k, cursors);
    hide NoDup, Pager.Reject, Pager.TokensOk, Pager.HonestPage, AllEarlier;
  }

  /**
   * `sdk.bidders` against the moving chain. Past Open it yields the whole index in order, page after page,
   * and only a lost request stops it.
   */
  method ReadBidders(chain: Chain, rid: nat) returns (r: Result<seq<Address>, Fault>)
    requires Inv(chain.state) && rid in chain.state.cells && chain.state.cells[rid].round.status != Open
    modifies chain
    ensures Follows(old(chain.state), chain.state)
    ensures r.Ok? ==> rid in chain.state.cells && r.value == chain.state.cells[rid].round.bidders
    ensures r.Err? ==> !r.error.BadPage?
    ensures chain.AlwaysUp() ==> r.Ok?
    ensures chain.landed == old(chain.landed)
    ensures Kept(chain.turns, old(chain.asked), chain.asked, old(chain.state), chain.state, rid)
  {
    hide Run, Kept;
    hide Inv, Follows, Pager.Reject, Pager.HonestPage, Pager.TokensOk, NoDup, Walked;
    ghost var start, from := chain.state, chain.asked;
    KeptSelf(chain.turns, from, start, rid);
    ghost var bidders := start.cells[rid].round.bidders;
    FollowsSelf(start);
    SoundIndex(start, rid);
    var k, total: Option<Pager.Number> := 0, None;
    var seen: seq<Address>, cursors: set<seq<byte>> := [], {};
    NothingWalked(bidders, chain.token);
    while true
      invariant Inv(chain.state) && Follows(start, chain.state) && Indexes(chain.state, rid, bidders)
      invariant Walked(bidders, chain.token, k, total, seen, cursors)
      invariant chain.landed == old(chain.landed)
      invariant Kept(chain.turns, from, chain.asked, start, chain.state, rid)
      decreases |bidders| - k * Pager.PAGE_SIZE
    {
      ghost var mid := chain.state;
      var page := chain.GetBiddersPage(rid, k);
      KeptTurn(chain.turns, chain.asked - 1, mid, rid);
      KeptTrans(chain.turns, from, chain.asked - 1, chain.asked, start, mid, chain.state, rid);
      FollowsTrans(start, mid, chain.state);
      IndexFollows(mid, chain.state, rid, bidders);
      if page.Err? {
        return Err(page.error);
      }
      var p := page.value;
      WalkedOn(bidders, chain.token, k, total, seen, cursors);
      if total.None? {
        total := Some(p.total);
      }
      var flaw := Pager.CheckPage(p, total.value, seen, cursors);
      match flaw {
        case Some(f) => return Err(BadPage(f));
        case None =>
      }
      seen := seen + p.data.value;
      if !p.hasMore.value {
        return Ok(seen);
      }
      cursors := cursors + {p.nextCursor.b};
      k := k + 1;
    }
  }

  lemma NothingWalked(bidders: seq<Address>, token: nat -> seq<byte>)
    ensures Walked(bidders, token, 0, None, [], {})
  {
  }
}
