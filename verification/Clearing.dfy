/** What `clear` computes: the earliest-indexed bidder whose valid revealed value is extremal. */
module Clearing {
  import opened Prelude
  import opened RoundTypes
  import opened RoundSpec

  ghost predicate Eligible(bids: map<Address, BidState>, bidder: Address) {
    bidder in bids && bids[bidder].valid && bids[bidder].revealedValue.Some?
  }

  ghost function ValueOf(bids: map<Address, BidState>, bidder: Address): i128
    requires Eligible(bids, bidder)
  {
    bids[bidder].revealedValue.value
  }

  /** Under the rule, a bid of `v` is preferred to one of `w`. */
  ghost predicate Preferred(rule: ClearingRule, v: int, w: int) {
    if rule == HighestBid then v > w else v < w
  }

  /** Position `i` of the index beats every eligible earlier bid and no eligible later bid beats it. */
  ghost predicate IsWinner(bids: map<Address, BidState>, rule: ClearingRule, bidders: seq<Address>, i: int) {
    && 0 <= i < |bidders|
    && Eligible(bids, bidders[i])
    && (forall j :: 0 <= j < i && Eligible(bids, bidders[j]) ==>
          Preferred(rule, ValueOf(bids, bidders[i]), ValueOf(bids, bidders[j])))
    && (forall j :: i < j < |bidders| && Eligible(bids, bidders[j]) ==>
          !Preferred(rule, ValueOf(bids, bidders[j]), ValueOf(bids, bidders[i])))
  }

  /** `best` is the outcome of clearing exactly the bidders of `bidders`. */
  ghost predicate Outcome(bids: map<Address, BidState>, rule: ClearingRule, bidders: seq<Address>,
                          best: Option<(Address, i128)>)
  {
    match best
    case None => forall j :: 0 <= j < |bidders| ==> !Eligible(bids, bidders[j])
    case Some(w) => exists i :: IsWinner(bids, rule, bidders, i) && w == (bidders[i], ValueOf(bids, bidders[i]))
  }

  lemma ClearStepOutcome(bids: map<Address, BidState>, rule: ClearingRule, bidders: seq<Address>,
                         best: Option<(Address, i128)>, bidder: Address)
    requires Outcome(bids, rule, bidders, best)
    ensures Outcome(bids, rule, bidders + [bidder], ClearStep(best, bids, rule, bidder))
  {
    var next := ClearStep(best, bids, rule, bidder);
    var all := bidders + [bidder];
    var n := |bidders|;
    if best.Some? {
      var i :| IsWinner(bids, rule, bidders, i) && best.value == (bidders[i], ValueOf(bids, bidders[i]));
      assert all[i] == bidders[i];
      if next == best {
        assert IsWinner(bids, rule, all, i);
      } else {
        assert all[n] == bidder;
        forall j | 0 <= j < n && Eligible(bids, all[j])
          ensures Preferred(rule, ValueOf(bids, all[n]), ValueOf(bids, all[j]))
        {
          assert all[j] == bidders[j];
        }
        assert IsWinner(bids, rule, all, n);
      }
    } else if next.Some? {
      assert all[n] == bidder;
      assert IsWinner(bids, rule, all, n);
    }
  }

  lemma {:induction false} BestBidOutcome(bids: map<Address, BidState>, rule: ClearingRule, done: seq<Address>,
                                          rest: seq<Address>, best: Option<(Address, i128)>)
    requires Outcome(bids, rule, done, best)
    ensures Outcome(bids, rule, done + rest, BestBid(best, bids, rule, rest))
    decreases |rest|
  {
    if rest == [] {
      assert done + rest == done;
    } else {
      ClearStepOutcome(bids, rule, done, best, rest[0]);
      BestBidOutcome(bids, rule, done + [rest[0]], rest[1..], ClearStep(best, bids, rule, rest[0]));
      assert done + rest == done + [rest[0]] + rest[1..];
    }
  }

  lemma WinnerUnique(bids: map<Address, BidState>, rule: ClearingRule, bidders: seq<Address>, i: int, j: int)
    requires IsWinner(bids, rule, bidders, i) && IsWinner(bids, rule, bidders, j)
    ensures i == j
  {
  }

  /**
   * `clear` names `(a, v)` exactly when `a` holds the winning position with value `v`, and names
   * nobody exactly when no indexed bid is eligible. Holds for any stored index, duplicates included.
   */
  lemma ClearPicksEarliestExtremal(bids: map<Address, BidState>, rule: ClearingRule, bidders: seq<Address>,
          a: Address, v: i128)
    ensures BestBid(None, bids, rule, bidders) == Some((a, v))
       <==> exists i :: IsWinner(bids, rule, bidders, i) && bidders[i] == a && ValueOf(bids, a) == v
    ensures BestBid(None, bids, rule, bidders) == None
       <==> forall j :: 0 <= j < |bidders| ==> !Eligible(bids, bidders[j])
  {
    BestBidOutcome(bids, rule, [], bidders, None);
    assert [] + bidders == bidders;
    forall i, j | IsWinner(bids, rule, bidders, i) && IsWinner(bids, rule, bidders, j)
      ensures i == j
    {
      WinnerUnique(bids, rule, bidders, i, j);
    }
  }

  /** The outcome reads only validity and revealed values: settling bids does not move it. */
  lemma {:induction false} BestBidFrame(best: Option<(Address, i128)>, bids: map<Address, BidState>,
                                        other: map<Address, BidState>, rule: ClearingRule, bidders: seq<Address>)
    requires forall b :: b in bidders ==> (b in bids && b in other
               && bids[b].valid == other[b].valid && bids[b].revealedValue == other[b].revealedValue)
    ensures BestBid(best, bids, rule, bidders) == BestBid(best, other, rule, bidders)
    decreases |bidders|
  {
    if bidders != [] {
      assert ClearStep(best, bids, rule, bidders[0]) == ClearStep(best, other, rule, bidders[0]);
      BestBidFrame(ClearStep(best, bids, rule, bidders[0]), bids, other, rule, bidders[1..]);
    }
  }
}
