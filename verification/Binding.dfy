/** Sealed bids stay bound: what `clear` ranks is what was committed, in time, under escrow. */
module Binding {
  import opened Prelude
  import opened RoundTypes
  import Spec = RoundSpec
  import opened RoundInvariant
  import opened Payout
  import opened Settlement
  import opened Runs
  import Commitment
  import Drand
  import Lifecycle
  import Progress

  // ---- Reveals commute ---------------------------------------------------------------

  lemma {:induction false} ScanFrame(acc: EscrowIndex, bids: map<Address, BidState>, other: map<Address,
          BidState>, bidders: seq<Address>)
    requires bids.Keys == other.Keys
    requires forall b :: b in bids ==> bids[b].escrow == other[b].escrow && bids[b].settled == other[b].settled
    ensures Spec.Scan(acc, bids, bidders) == Spec.Scan(acc, other, bidders)
    decreases |bidders|
  {
    if bidders != [] && Spec.ScanStep(acc, bids, bidders[0]).Ok? {
      ScanFrame(Spec.ScanStep(acc, bids, bidders[0]).value, bids, other, bidders[1..]);
    }
  }

  /** A reveal of another bid neither enables nor prevents this one, whatever is stored. */
  lemma RevealIndependent(s: State, rid: nat, a: Address, v: i128, n: Bytes32, rid': nat, a': Address,
          v': i128, n': Bytes32)
    requires (rid, a) != (rid', a') && Spec.Reveal(s, rid, a, v, n).Ok?
    ensures var t := Spec.Reveal(s, rid, a, v, n).value;
            match Spec.Reveal(s, rid', a', v', n')
            case Err(e) => Spec.Reveal(t, rid', a', v', n') == Err(e)
            case Ok(_) => Spec.Reveal(t, rid', a', v', n').Ok?
  {
    var t := Spec.Reveal(s, rid, a, v, n).value;
    if rid == rid' {
      var c, d := s.cells[rid], t.cells[rid];
      ScanFrame(EscrowIndex(0, 0), c.bids, d.bids, c.round.bidders);
      assert Spec.ScanBidderIndex(c) == Spec.ScanBidderIndex(d);
      assert Spec.EnsureLedger(d) == Spec.EnsureLedger(c);
    }
  }

  /** What a successful reveal leaves behind, whatever was stored. */
  lemma RevealResult(s: State, rid: nat, a: Address, v: i128, n: Bytes32)
    requires Spec.Reveal(s, rid, a, v, n).Ok?
    ensures rid in s.cells && a in s.cells[rid].bids && Spec.EnsureLedger(s.cells[rid]).Ok?
    ensures var c := s.cells[rid];
            Spec.Reveal(s, rid, a, v, n).value
            == s.(cells := s.cells[rid := Cell(c.round, c.bids[a := RevealedBid(c.bids[a], v, n)],
                Some(Spec.EnsureLedger(c).value))])
  {
    hide Spec.EnsureLedger, Spec.ProveConserved;
  }

  /** Successful reveals of different bids commute: the order of reveals cannot matter to `clear`. */
  lemma RevealsCommute(s: State, rid: nat, a: Address, v: i128, n: Bytes32, rid': nat, a': Address, v': i128,
          n': Bytes32)
    requires (rid, a) != (rid', a')
    requires Spec.Reveal(s, rid, a, v, n).Ok? && Spec.Reveal(s, rid', a', v', n').Ok?
    ensures Spec.Reveal(Spec.Reveal(s, rid, a, v, n).value, rid', a', v', n').Ok?
    ensures Spec.Reveal(Spec.Reveal(s, rid, a, v, n).value, rid', a', v', n')
         == Spec.Reveal(Spec.Reveal(s, rid', a', v', n').value, rid, a, v, n)
  {
    hide Spec.Reveal;
    RevealIndependent(s, rid, a, v, n, rid', a', v', n');
    RevealIndependent(s, rid', a', v', n', rid, a, v, n);
    var t, u := Spec.Reveal(s, rid, a, v, n).value, Spec.Reveal(s, rid', a', v', n').value;
    RevealResult(s, rid, a, v, n);
    RevealResult(s, rid', a', v', n');
    RevealResult(t, rid', a', v', n');
    RevealResult(u, rid, a, v, n);
    var x, y := Spec.Reveal(t, rid', a', v', n').value, Spec.Reveal(u, rid, a, v, n).value;
    if rid == rid' {
      assert x.cells[rid].bids == y.cells[rid].bids;
    }
    assert x.cells == y.cells;
  }

  /** In any run, swapping two adjacent reveals of different bids, accepted or not, changes nothing. */
  lemma RevealOrderIrrelevant(s: State, x: Call, y: Call)
    requires x.Reveal? && y.Reveal? && (x.rid, x.bidder) != (y.rid, y.bidder)
    ensures Step(Step(s, x), y) == Step(Step(s, y), x)
  {
    var a, b := Spec.Reveal(s, x.rid, x.bidder, x.value, x.nonce), Spec.Reveal(s, y.rid, y.bidder, y.value, y.nonce);
    if a.Ok? {
      RevealIndependent(s, x.rid, x.bidder, x.value, x.nonce, y.rid, y.bidder, y.value, y.nonce);
    }
    if b.Ok? {
      RevealIndependent(s, y.rid, y.bidder, y.value, y.nonce, x.rid, x.bidder, x.value, x.nonce);
    }
    if a.Ok? && b.Ok? {
      RevealsCommute(s, x.rid, x.bidder, x.value, x.nonce, y.rid, y.bidder, y.value, y.nonce);
    }
    hide Spec.Reveal;
  }

  /** Reveals of pairwise different bids. */
  ghost predicate DistinctReveals(calls: seq<Call>) {
    && (forall c :: c in calls ==> c.Reveal?)
    && forall i, j :: 0 <= i < j < |calls| ==> (calls[i].rid, calls[i].bidder) != (calls[j].rid, calls[j].bidder)
  }

  lemma SwapInRun(s: State, before: seq<Call>, x: Call, y: Call, after: seq<Call>)
    requires x.Reveal? && y.Reveal? && (x.rid, x.bidder) != (y.rid, y.bidder)
    ensures Run(s, before + [x, y] + after) == Run(s, before + [y, x] + after)
  {
    hide Step;
    var mid := Run(s, before);
    RevealOrderIrrelevant(mid, x, y);
    Lifecycle.RunTwo(mid, x, y);
    Lifecycle.RunTwo(mid, y, x);
    RunConcat(s, before, [x, y]);
    RunConcat(s, before, [y, x]);
    RunConcat(s, before + [x, y], after);
    RunConcat(s, before + [y, x], after);
  }

  /** The i-th of several reveals may as well come last. */
  lemma {:induction false} MoveToEnd(s: State, calls: seq<Call>, i: nat)
    requires DistinctReveals(calls) && i < |calls|
    ensures Run(s, calls) == Run(s, calls[..i] + calls[i + 1..] + [calls[i]])
    decreases |calls| - i
  {
    hide Run;
    var n := |calls|;
    if i == n - 1 {
      assert calls == calls[..i] + calls[i + 1..] + [calls[i]];
    } else {
      var x, y := calls[i], calls[i + 1];
      assert calls == calls[..i] + [x, y] + calls[i + 2..];
      SwapInRun(s, calls[..i], x, y, calls[i + 2..]);
      var swapped := calls[..i] + [y, x] + calls[i + 2..];
      SwappedDistinct(calls, swapped, i);
      MoveToEnd(s, swapped, i + 1);
      assert swapped[..i + 1] + swapped[i + 2..] + [swapped[i + 1]] == calls[..i] + calls[i + 1..] + [x];
    }
  }

  lemma SwappedDistinct(calls: seq<Call>, swapped: seq<Call>, i: nat)
    requires DistinctReveals(calls) && i + 1 < |calls|
    requires swapped == calls[..i] + [calls[i + 1], calls[i]] + calls[i + 2..]
    ensures DistinctReveals(swapped)
  {
    assert |swapped| == |calls|;
    assert forall k :: 0 <= k < |calls| ==>
      swapped[k] == calls[if k == i then i + 1 else if k == i + 1 then i else k];
  }

  lemma WithoutOneCall(calls: seq<Call>, i: nat)
    requires DistinctReveals(calls) && i < |calls|
    ensures DistinctReveals(calls[..i] + calls[i + 1..])
    ensures multiset(calls[..i] + calls[i + 1..]) == multiset(calls) - multiset{calls[i]}
  {
    DistinctWithout(calls, i);
    hide DistinctReveals;
    assert calls == calls[..i] + [calls[i]] + calls[i + 1..];
  }

  lemma DistinctWithout(calls: seq<Call>, i: nat)
    requires DistinctReveals(calls) && i < |calls|
    ensures DistinctReveals(calls[..i] + calls[i + 1..])
  {
    var rest := calls[..i] + calls[i + 1..];
    assert forall k :: 0 <= k < |rest| ==> rest[k] == calls[if k < i then k else k + 1];
  }

  lemma {:induction false} PermutedReveals(s: State, xs: seq<Call>, ys: seq<Call>)
    requires DistinctReveals(xs) && DistinctReveals(ys) && multiset(xs) == multiset(ys)
    ensures Run(s, xs) == Run(s, ys)
    decreases |xs|
  {
    hide Step;
    assert |xs| == |multiset(xs)| == |multiset(ys)| == |ys|;
    if xs != [] {
      var front, x := xs[..|xs| - 1], xs[|xs| - 1];
      assert x in multiset(xs);
      var i :| 0 <= i < |ys| && ys[i] == x;
      var rest := ys[..i] + ys[i + 1..];
      MoveToEnd(s, ys, i);
      WithoutOneCall(ys, i);
      WithoutOneCall(xs, |xs| - 1);
      assert xs[..|xs| - 1] + xs[|xs| - 1 + 1..] == front;
      PermutedReveals(s, front, rest);
      assert (rest + [x])[..|rest|] == rest;
    }
  }

  lemma {:induction false} PermutationDistinct(xs: seq<Call>, ys: seq<Call>)
    requires DistinctReveals(xs) && multiset(xs) == multiset(ys)
    ensures DistinctReveals(ys)
  {
    forall c | c in ys
      ensures c.Reveal? && c in xs
    {
      assert c in multiset(ys);
    }
    forall i, j | 0 <= i < j < |ys|
      ensures (ys[i].rid, ys[i].bidder) != (ys[j].rid, ys[j].bidder)
    {
      if ys[i] == ys[j] {
        TwiceInMultiset(ys, i, j);
        OnceInMultiset(xs, ys[i]);
      } else {
        assert ys[i] in xs && ys[j] in xs;
        var k :| 0 <= k < |xs| && xs[k] == ys[i];
        var m :| 0 <= m < |xs| && xs[m] == ys[j];
      }
    }
  }

  lemma TwiceInMultiset(calls: seq<Call>, i: nat, j: nat)
    requires i < j < |calls| && calls[i] == calls[j]
    ensures multiset(calls)[calls[i]] >= 2
  {
    assert calls == calls[..i] + [calls[i]] + calls[i + 1..j] + [calls[j]] + calls[j + 1..];
  }

  lemma OnceInMultiset(calls: seq<Call>, c: Call)
    requires DistinctReveals(calls)
    ensures multiset(calls)[c] <= 1
  {
    if c in calls {
      var k :| 0 <= k < |calls| && calls[k] == c;
      var rest := calls[..k] + calls[k + 1..];
      WithoutOneCall(calls, k);
      assert forall m :: 0 <= m < |rest| ==> rest[m] == calls[if m < k then m else m + 1];
      assert c !in rest;
      assert multiset(rest)[c] == 0;
    } else {
      assert c !in multiset(calls);
    }
  }

  /**
   * The order of reveals is irrelevant: any permutation of reveals of different bids, accepted or not, leads
   * to the same state, and so does whatever is called afterwards; `clear` picks the same winner.
   */
  lemma RevealsPermute(s: State, xs: seq<Call>, ys: seq<Call>, rest: seq<Call>)
    requires DistinctReveals(xs) && multiset(xs) == multiset(ys)
    ensures Run(s, xs + rest) == Run(s, ys + rest)
    ensures forall rid :: Spec.Clear(Run(s, xs), rid) == Spec.Clear(Run(s, ys), rid)
  {
    hide Run, Spec.Clear;
    PermutationDistinct(xs, ys);
    PermutedReveals(s, xs, ys);
    RunConcat(s, xs, rest);
    RunConcat(s, ys, rest);
  }

  // ---- The last accepted commit -------------------------------------------------------

  /** What a successful commit put on record, and when. */
  datatype Sealed = Sealed(at: u64, commitment: Bytes32, escrow: i128, sealRound: u64)

  /** The last commit of `a` to round `rid` the contract accepted during the run. */
  ghost function LastCommit(s: State, calls: seq<Call>, rid: nat, a: Address): Option<Sealed> {
    if calls == [] then None
    else
      var front, last := calls[..|calls| - 1], calls[|calls| - 1];
      var mid := Run(s, front);
      if last.Commit? && last.rid == rid && last.bidder == a && Attempt(mid, last).Ok? then
        Some(Sealed(mid.now, last.commitment, last.escrow, last.sealRound))
      else LastCommit(s, front, rid, a)
  }

  ghost predicate HasBid(s: State, rid: nat, a: Address) {
    rid in s.cells && a in s.cells[rid].bids
  }

  ghost predicate SameSeal(s: State, t: State, rid: nat, a: Address) {
    && (HasBid(s, rid, a) <==> HasBid(t, rid, a))
    && (HasBid(s, rid, a) ==>
          && t.cells[rid].bids[a].commitment == s.cells[rid].bids[a].commitment
          && t.cells[rid].bids[a].escrow == s.cells[rid].bids[a].escrow
          && Progress.SameTerms(s.cells[rid].round, t.cells[rid].round))
  }

  /** Neither the seal nor the reveal of the bid changed. */
  ghost predicate SameBid(s: State, t: State, rid: nat, a: Address) {
    && SameSeal(s, t, rid, a)
    && (HasBid(s, rid, a) ==>
          && t.cells[rid].bids[a].revealedValue == s.cells[rid].bids[a].revealedValue
          && t.cells[rid].bids[a].revealedNonce == s.cells[rid].bids[a].revealedNonce)
  }

  ghost predicate IsRevealBy(c: Call, rid: nat, a: Address) {
    c.Reveal? && c.rid == rid && c.bidder == a
  }

  ghost predicate IsCommitBy(c: Call, rid: nat, a: Address) {
    c.Commit? && c.rid == rid && c.bidder == a
  }

  lemma PaidOutKeepsSeal(s: State, t: State, rid: nat, d: Cell, status: Status, a: Address)
    requires rid in s.cells && t.cells == s.cells[rid := d]
    requires d.bids == MarkAll(s.cells[rid].bids, s.cells[rid].round.bidders)
            && d.round == s.cells[rid].round.(status := status)
    ensures SameBid(s, t, rid, a)
  {
  }

  lemma SettleKeepsSeal(s: State, rid: nat, a: Address)
    requires Inv(s) && Spec.Settle(s, rid).Ok?
    ensures SameBid(s, Spec.Settle(s, rid).value, rid, a)
  {
    SettleInv(s, rid);
    SettleCannotFail(s, rid);
    PaidOutKeepsSeal(s, Spec.Settle(s, rid).value, rid, SettledCell(s.cells[rid]), Settled, a);
    hide Spec.Settle, Inv, RoundInv, SameBid;
  }

  lemma RefundKeepsSeal(s: State, rid: nat, a: Address)
    requires Inv(s) && rid in s.cells && s.cells[rid].round.status in {Open, Revealing}
    ensures var c := s.cells[rid]; var t := Spec.RefundAll(s, rid, c.(round := c.round.(status := Voided)));
            t.Ok? && SameBid(s, t.value, rid, a)
  {
    RefundCannotFail(s, rid);
    var c := s.cells[rid];
    PaidOutKeepsSeal(s, Spec.RefundAll(s, rid, c.(round := c.round.(status := Voided))).value, rid, VoidedCell(c),
        Voided, a);
    hide Spec.RefundAll, Inv, RoundInv, SameBid;
  }

  lemma ClearKeepsSeal(s: State, rid: nat, a: Address)
    requires Inv(s) && Spec.Clear(s, rid).Ok?
    ensures SameBid(s, Spec.Clear(s, rid).value.0, rid, a)
  {
    hide Inv;
    var c := s.cells[rid];
    if Spec.BestBid(None, c.bids, c.round.rule, c.round.bidders).None? {
      hide Spec.RefundAll, SameBid;
      RefundKeepsSeal(s, rid, a);
    }
  }

  lemma VoidKeepsSeal(s: State, rid: nat, a: Address)
    requires Inv(s) && Spec.Void(s, rid).Ok?
    ensures SameBid(s, Spec.Void(s, rid).value, rid, a)
  {
    hide Inv, Spec.RefundAll, SameBid;
    RefundKeepsSeal(s, rid, a);
  }

  lemma CommitKeepsOtherSeal(s: State, rid: nat, b: Address, h: Bytes32, len: nat, e: i128, blob: nat,
          seal: u64, a: Address)
    requires Inv(s) && a != b && Spec.Commit(s, rid, b, h, len, e, blob, seal).Ok?
    ensures SameBid(s, Spec.Commit(s, rid, b, h, len, e, blob, seal).value, rid, a)
  {
    CommitEffect(s, rid, b, h, len, e, blob, seal);
    var t := Spec.Commit(s, rid, b, h, len, e, blob, seal).value;
    CommittedKeepsOtherSeal(s, t, rid, b, h, e, t.cells[rid].ledger.value, a);
    hide Spec.Commit, Inv, RoundInv, SameBid;
  }

  lemma CommittedKeepsOtherSeal(s: State, t: State, rid: nat, b: Address, h: Bytes32, e: i128, l: EscrowLedger,
          a: Address)
    requires rid in s.cells && a != b && t.cells == s.cells[rid := CommittedCell(s.cells[rid], b, h, e, l)]
    ensures SameBid(s, t, rid, a)
  {
  }

  lemma RevealKeepsSeal(s: State, rid: nat, b: Address, v: i128, n: Bytes32, a: Address)
    requires Spec.Reveal(s, rid, b, v, n).Ok?
    ensures SameSeal(s, Spec.Reveal(s, rid, b, v, n).value, rid, a)
    ensures a != b ==> SameBid(s, Spec.Reveal(s, rid, b, v, n).value, rid, a)
  {
  }

  lemma SameCellSameSeal(s: State, t: State, rid: nat, a: Address)
    ensures (rid in s.cells <==> rid in t.cells) && (rid in s.cells ==> t.cells[rid] == s.cells[rid]) ==>
              SameBid(s, t, rid, a)
  {
  }

  /**
   * Only the bidder's own successful commit can touch the seal and escrow, and only a reveal of that bid its
   * reveal.
   */
  lemma OnlyCommitReseals(s: State, c: Call, rid: nat, a: Address)
    requires Inv(s) && (Attempt(s, c).Err? || !IsCommitBy(c, rid, a))
    ensures SameSeal(s, Step(s, c), rid, a)
    ensures !IsRevealBy(c, rid, a) ==> SameBid(s, Step(s, c), rid, a)
  {
    SameCellSameSeal(s, s, rid, a);
    if Attempt(s, c).Ok? && Lifecycle.Target(s, c) == Some(rid) {
      OwnCallKeepsSeal(s, c, rid, a);
    } else {
      Lifecycle.CallsStayInTheirRound(s, c);
      SameCellSameSeal(s, Step(s, c), rid, a);
      hide Inv, Attempt, Step, SameBid, Lifecycle.Tagged;
    }
  }

  lemma OwnCallKeepsSeal(s: State, c: Call, rid: nat, a: Address)
    requires Inv(s) && Attempt(s, c).Ok? && !IsCommitBy(c, rid, a) && Lifecycle.Target(s, c) == Some(rid)
    ensures SameSeal(s, Step(s, c), rid, a)
    ensures !IsRevealBy(c, rid, a) ==> SameBid(s, Step(s, c), rid, a)
  {
    hide Inv, SameSeal, Spec.CreateRound, Spec.Commit, Spec.OpenReveal, Spec.Reveal, Spec.Clear, Spec.Settle, Spec.Void;
    match c {
      case CreateRound(_, _, _, _, _, _) => CreateRoundKeepsSeal(s, c, rid, a);
      case Commit(_, b, h, len, e, blob, r) => CommitKeepsOtherSeal(s, rid, b, h, len, e, blob, r, a);
      case OpenReveal(_, ok) => OpenRevealKeepsSeal(s, rid, ok, a);
      case Reveal(_, b, v, n) => RevealKeepsSeal(s, rid, b, v, n, a);
      case Clear(_) => ClearKeepsSeal(s, rid, a);
      case Settle(_) => SettleKeepsSeal(s, rid, a);
      case Void(_) => VoidKeepsSeal(s, rid, a);
    }
  }

  lemma CreateRoundKeepsSeal(s: State, c: Call, rid: nat, a: Address)
    requires Inv(s) && c.CreateRound? && Attempt(s, c).Ok? && rid == s.counter + 1
    ensures SameBid(s, Step(s, c), rid, a)
  {
  }

  lemma OpenRevealKeepsSeal(s: State, rid: nat, ok: bool, a: Address)
    requires Spec.OpenReveal(s, rid, ok).Ok?
    ensures SameBid(s, Spec.OpenReveal(s, rid, ok).value, rid, a)
  {
  }

  /** `rec` is what bid `a` of round `rid` rests on: in time, for the right Drand round, fully escrowed. */
  ghost predicate RestsOn(s: State, rid: nat, a: Address, rec: Sealed)
    requires HasBid(s, rid, a)
  {
    var c := s.cells[rid];
    && c.bids[a].commitment == rec.commitment && c.bids[a].escrow == rec.escrow
    && rec.sealRound == c.round.revealRound
    && Drand.CheckedTimeOfRound(s.config, c.round.revealRound).Some?
    && rec.at < Drand.CheckedTimeOfRound(s.config, c.round.revealRound).value
  }

  lemma CommitRests(s: State, rid: nat, a: Address, h: Bytes32, len: nat, e: i128, blob: nat, seal: u64)
    requires Inv(s) && Spec.Commit(s, rid, a, h, len, e, blob, seal).Ok?
    ensures var t := Spec.Commit(s, rid, a, h, len, e, blob, seal).value;
            HasBid(t, rid, a) && RestsOn(t, rid, a, Sealed(s.now, h, e, seal))
  {
    CommitEffect(s, rid, a, h, len, e, blob, seal);
    assert ScheduleOk(s.config, s.cells[rid].round);
    hide Spec.Commit, Inv, RoundInv;
  }

  lemma StepKeepsConfig(s: State, c: Call)
    ensures Step(s, c).config == s.config && Step(s, c).sha == s.sha
  {
  }

  /** Bids and accepted commits correspond, at every point of every run. */
  lemma {:induction false} BidsRestOnCommits(s: State, calls: seq<Call>, rid: nat, a: Address)
    requires Genesis(s)
    ensures var t := Run(s, calls); var rec := LastCommit(s, calls, rid, a);
            && (HasBid(t, rid, a) <==> rec.Some?)
            && (HasBid(t, rid, a) ==> RestsOn(t, rid, a, rec.value))
  {
    if calls != [] {
      var front, last := calls[..|calls| - 1], calls[|calls| - 1];
      var mid := Run(s, front);
      BidsRestOnCommits(s, front, rid, a);
      RunInv(s, front);
      hide Inv, Spec.Commit, Spec.Clear, Spec.Settle, Spec.Void, Spec.Reveal, Spec.OpenReveal, Spec.CreateRound;
      if IsCommitBy(last, rid, a) && Attempt(mid, last).Ok? {
        CommitRests(mid, rid, a, last.commitment, last.ciphertextLen, last.escrow, last.blobLen, last.sealRound);
      } else {
        OnlyCommitReseals(mid, last, rid, a);
        StepKeepsConfig(mid, last);
      }
    }
  }

  /** Two different strings with one digest. */
  ghost predicate Collision(sha: seq<byte> -> Bytes32, p: seq<byte>, q: seq<byte>) {
    p != q && sha(p) == sha(q)
  }

  /**
   * Binding across the run, for every hash function. A value the contract has on record for a bidder hashes,
   * with its nonce, to that bidder's last accepted commit; that commit was made strictly before the Drand
   * round it is sealed to was published, and locked at least that value. Any other value or nonce that
   * hashes there too is a collision of the hash.
   */
  lemma RevealedValueIsBound(s: State, calls: seq<Call>, rid: nat, a: Address)
    requires Genesis(s)
    requires var t := Run(s, calls); HasBid(t, rid, a) && t.cells[rid].bids[a].revealedValue.Some?
    ensures var t := Run(s, calls); var b := t.cells[rid].bids[a]; var rec := LastCommit(s, calls, rid, a);
            && rec.Some? && RestsOn(t, rid, a, rec.value)
            && b.revealedValue.value <= rec.value.escrow
            && b.revealedNonce.Some?
            && s.sha(Commitment.BidPreimage(b.revealedValue.value, b.revealedNonce.value)) == rec.value.commitment
            && (forall v': i128, n': Bytes32 :: s.sha(Commitment.BidPreimage(v', n')) == rec.value.commitment ==>
                  || (v' == b.revealedValue.value && n' == b.revealedNonce.value)
                  || Collision(s.sha, Commitment.BidPreimage(v', n'),
                               Commitment.BidPreimage(b.revealedValue.value, b.revealedNonce.value)))
  {
    var t := Run(s, calls);
    BidsRestOnCommits(s, calls, rid, a);
    RunInv(s, calls);
    RunKeepsSha(s, calls);
    var b := t.cells[rid].bids[a];
    assert BidOk(t.sha, b) by {
      assert RoundInv(t, t.cells[rid]);
    }
    var v, n := b.revealedValue.value, b.revealedNonce.value;
    forall v': i128, n': Bytes32 | s.sha(Commitment.BidPreimage(v', n')) == b.commitment
      ensures (v' == v && n' == n) || Collision(s.sha, Commitment.BidPreimage(v', n'), Commitment.BidPreimage(v, n))
    {
      if Commitment.BidPreimage(v', n') == Commitment.BidPreimage(v, n) {
        Commitment.PreimageInjective(v, n, v', n');
      }
    }
  }

  /** The preimages the reveals of a run offer. */
  ghost function Offered(calls: seq<Call>): set<seq<byte>> {
    set c | c in calls && c.Reveal? :: Commitment.BidPreimage(c.value, c.nonce)
  }

  /** No two of these strings collide. Unlike injectivity, a hash can have this for any finite set. */
  ghost predicate CollisionFreeOn(sha: seq<byte> -> Bytes32, ps: set<seq<byte>>) {
    forall p, q :: p in ps && q in ps ==> !Collision(sha, p, q)
  }

  lemma CommitClears(s: State, rid: nat, a: Address, h: Bytes32, len: nat, e: i128, blob: nat, seal: u64)
    requires Inv(s) && Spec.Commit(s, rid, a, h, len, e, blob, seal).Ok?
    ensures var t := Spec.Commit(s, rid, a, h, len, e, blob, seal).value;
            HasBid(t, rid, a) && t.cells[rid].bids[a].revealedValue == None
  {
    CommitEffect(s, rid, a, h, len, e, blob, seal);
    hide Spec.Commit, Inv, RoundInv;
  }

  lemma RevealRecords(s: State, rid: nat, a: Address, v: i128, n: Bytes32)
    requires Spec.Reveal(s, rid, a, v, n).Ok?
    ensures var t := Spec.Reveal(s, rid, a, v, n).value;
            HasBid(t, rid, a) && t.cells[rid].bids[a].revealedValue == Some(v)
            && t.cells[rid].bids[a].revealedNonce == Some(n)
  {
    RevealResult(s, rid, a, v, n);
    hide Spec.Reveal;
  }

  ghost predicate RevealedBy(t: State, calls: seq<Call>, rid: nat, a: Address) {
    HasBid(t, rid, a) && t.cells[rid].bids[a].revealedValue.Some? ==>
      && t.cells[rid].bids[a].revealedNonce.Some?
      && Call.Reveal(rid, a, t.cells[rid].bids[a].revealedValue.value,
            t.cells[rid].bids[a].revealedNonce.value) in calls
  }

  /** Every revealed value and nonce was offered by a reveal call of the run. */
  lemma {:induction false} RevealsComeFromCalls(s: State, calls: seq<Call>, rid: nat, a: Address)
    requires Genesis(s)
    ensures RevealedBy(Run(s, calls), calls, rid, a)
  {
    if calls != [] {
      var front, last := calls[..|calls| - 1], calls[|calls| - 1];
      var mid := Run(s, front);
      RevealsComeFromCalls(s, front, rid, a);
      RunInv(s, front);
      assert calls == front + [last];
      hide Inv, Spec.Commit, Spec.Clear, Spec.Settle, Spec.Void, Spec.Reveal, Spec.OpenReveal, Spec.CreateRound;
      if IsCommitBy(last, rid, a) && Attempt(mid, last).Ok? {
        CommitClears(mid, rid, a, last.commitment, last.ciphertextLen, last.escrow, last.blobLen, last.sealRound);
      } else if IsRevealBy(last, rid, a) && Attempt(mid, last).Ok? {
        RevealRecords(mid, rid, a, last.value, last.nonce);
      } else if Attempt(mid, last).Ok? {
        OnlyCommitReseals(mid, last, rid, a);
      }
    }
  }

  /**
   * What is revealed is what was sealed: if the bidder committed to a value and nonce, and that preimage and
   * those offered during the run are free of collisions, then no reveal by anybody, in any order, has put
   * another value on record.
   */
  lemma RevealedIsSealed(s: State, calls: seq<Call>, rid: nat, a: Address, v: i128, n: Bytes32)
    requires Genesis(s) && LastCommit(s, calls, rid, a).Some?
    requires LastCommit(s, calls, rid, a).value.commitment == s.sha(Commitment.BidPreimage(v, n))
    requires CollisionFreeOn(s.sha, Offered(calls) + {Commitment.BidPreimage(v, n)})
    requires HasBid(Run(s, calls), rid, a) && Run(s, calls).cells[rid].bids[a].revealedValue.Some?
    ensures Run(s, calls).cells[rid].bids[a].revealedValue == Some(v)
    ensures Run(s, calls).cells[rid].bids[a].revealedNonce == Some(n)
  {
    RevealedValueIsBound(s, calls, rid, a);
    RevealsComeFromCalls(s, calls, rid, a);
    var b := Run(s, calls).cells[rid].bids[a];
    var p, q := Commitment.BidPreimage(v, n), Commitment.BidPreimage(b.revealedValue.value, b.revealedNonce.value);
    hide Run, LastCommit, RestsOn;
    assert q in Offered(calls);
    assert !Collision(s.sha, p, q);
  }

  lemma {:induction false} RunKeepsSha(s: State, calls: seq<Call>)
    ensures Run(s, calls).sha == s.sha
  {
    if calls != [] {
      RunKeepsSha(s, calls[..|calls| - 1]);
      StepKeepsConfig(Run(s, calls[..|calls| - 1]), calls[|calls| - 1]);
    }
  }
}
