/** A chain others call between any two of a client's requests, and what that can and cannot change. */
module Interleaving {
  import opened Prelude
  import opened RoundTypes
  import Spec = RoundSpec
  import opened RoundInvariant
  import opened Runs
  import opened Progress
  import Lifecycle
  import Pager

  // ---- The chain as the keeper sees it ----------------------------------------------------

  /** `t` is what some calls, by anyone, made of `s`. */
  ghost predicate Follows(s: State, t: State) {
    exists calls :: Run(s, calls) == t
  }

  /**
   * Before the keeper's k-th request others make `others`; `down` loses the request. A request that
   * landed but was reported lost is `down` with the keeper's own call among `others`; a process that
   * dies is `down` from then on.
   */
  datatype Turn = Turn(others: seq<Call>, down: bool)

  /** How a request can fail the keeper: lost, refused by the contract, or answered with a page it rejects. */
  datatype Fault = Offline | Refused(error: Error) | BadPage(flaw: Pager.PagerError)

  class Chain {
    var state: State
    var asked: nat
    /** The keeper's own calls that were accepted and answered, in order. */
    var landed: seq<Call>
    const turns: nat -> Turn
    const token: Pager.Tokens

    constructor (start: State, turns: nat -> Turn, token: Pager.Tokens)
      ensures state == start && asked == 0 && landed == [] && this.turns == turns && this.token == token
    {
      state, asked, landed := start, 0, [];
      this.turns := turns;
      this.token := token;
    }

    ghost predicate AlwaysUp() {
      forall k :: !turns(k).down
    }

    /** What the next request meets. */
    ghost function First(): State
      reads this
    {
      Run(state, turns(asked).others)
    }

    /** What the request after it meets, when the next one only reads. */
    ghost function Second(): State
      reads this
    {
      Run(First(), turns(asked + 1).others)
    }

    /** And the one after that, when the next two only read. */
    ghost function Third(): State
      reads this
    {
      Run(Second(), turns(asked + 2).others)
    }

    /** Let the others act, then say whether the keeper's request gets through. */
    method Reach() returns (up: bool)
      modifies this
      ensures state == Run(old(state), turns(old(asked)).others) && asked == old(asked) + 1
      ensures landed == old(landed)
      ensures up == !turns(old(asked)).down
      ensures Follows(old(state), state)
      ensures AlwaysUp() ==> up
    {
      var turn := turns(asked);
      state := Runs.Run(state, turn.others);
      asked := asked + 1;
      up := !turn.down;
    }

    method GetRound(rid: nat) returns (r: Result<Round, Fault>)
      modifies this
      ensures Follows(old(state), state)
      ensures state == old(First()) && asked == old(asked) + 1
      ensures landed == old(landed)
      ensures r.Ok? ==> rid in state.cells && r.value == state.cells[rid].round
      ensures AlwaysUp() ==> (r.Ok? <==> rid in state.cells)
    {
      var up := Reach();
      if !up {
        return Err(Offline);
      }
      r := if rid in state.cells then Ok(state.cells[rid].round) else Err(Refused(RoundNotFound));
    }

    method GetBidState(rid: nat, bidder: Address) returns (r: Result<BidState, Fault>)
      modifies this
      ensures Follows(old(state), state)
      ensures state == old(First()) && asked == old(asked) + 1
      ensures landed == old(landed)
      ensures r.Ok? ==>
                rid in state.cells && bidder in state.cells[rid].bids && r.value == state.cells[rid].bids[bidder]
      ensures AlwaysUp() && rid in state.cells && bidder in state.cells[rid].bids ==> r.Ok?
    {
      var up := Reach();
      if !up {
        return Err(Offline);
      }
      r := if rid in state.cells && bidder in state.cells[rid].bids then Ok(state.cells[rid].bids[bidder])
      else Err(Refused(BidNotFound));
    }

    /** The k-th page of the bidder index as it is when the request arrives. */
    method GetBiddersPage(rid: nat, k: nat) returns (r: Result<Pager.Page, Fault>)
      modifies this
      ensures Follows(old(state), state)
      ensures state == old(First()) && asked == old(asked) + 1
      ensures landed == old(landed)
      ensures r.Ok? ==> rid in state.cells && r.value == Pager.HonestPage(state.cells[rid].round.bidders, token, k)
      ensures r.Err? ==> !r.error.BadPage?
      ensures AlwaysUp() && rid in state.cells ==> r.Ok?
    {
      var up := Reach();
      if !up {
        return Err(Offline);
      }
      r := if rid in state.cells then Ok(Pager.HonestPage(state.cells[rid].round.bidders, token, k))
      else Err(Refused(RoundNotFound));
    }

    /** Submit a call; `before` is the state it met. */
    method Submit(c: Call) returns (r: Result<(), Fault>, ghost before: State)
      modifies this
      ensures Follows(old(state), before) && Follows(old(state), state)
      ensures before == old(First()) && asked == old(asked) + 1
      ensures landed == if r.Ok? then old(landed) + [c] else old(landed)
      ensures r.Ok? ==> Attempt(before, c) == Ok(state) && Follows(before, state)
      ensures r.Err? ==> state == before
      ensures r.Err? && r.error.Refused? ==> Attempt(before, c) == Err(r.error.error)
      ensures AlwaysUp() && r.Err? ==> r.error.Refused?
    {
      hide Attempt;
      var up := Reach();
      before := state;
      if !up {
        return Err(Offline), before;
      }
      FollowsStep(old(state), before, c);
      FollowsStep(before, before, c);
      var attempt := Attempt(state, c);
      if attempt.Err? {
        return Err(Refused(attempt.error)), before;
      }
      state := attempt.value;
      landed := landed + [c];
      r := Ok(());
    }

    /** `clear` also returns the winner it fixed. */
    method Clear(rid: nat) returns (r: Result<Option<Address>, Fault>, ghost before: State)
      modifies this
      ensures Follows(old(state), before) && Follows(old(state), state)
      ensures before == old(First()) && asked == old(asked) + 1
      ensures landed == if r.Ok? then old(landed) + [Call.Clear(rid)] else old(landed)
      ensures r.Ok? ==> Spec.Clear(before, rid) == Ok((state, r.value)) && Follows(before, state)
      ensures r.Err? ==> state == before
      ensures r.Err? && r.error.Refused? ==> Spec.Clear(before, rid) == Err(r.error.error)
      ensures AlwaysUp() && r.Err? ==> r.error.Refused?
    {
      hide Spec.Clear;
      var up := Reach();
      before := state;
      if !up {
        return Err(Offline), before;
      }
      FollowsStep(old(state), before, Call.Clear(rid));
      FollowsStep(before, before, Call.Clear(rid));
      var attempt := Spec.Clear(state, rid);
      if attempt.Err? {
        return Err(Refused(attempt.error)), before;
      }
      state := attempt.value.0;
      landed := landed + [Call.Clear(rid)];
      r := Ok(attempt.value.1);
    }
  }

  // ---- What may have happened between two requests ---------------------------------------------

  lemma FollowsSelf(s: State)
    ensures Follows(s, s)
  {
    assert Run(s, []) == s;
  }

  lemma FollowsTrans(s: State, t: State, u: State)
    requires Follows(s, t) && Follows(t, u)
    ensures Follows(s, u)
  {
    hide Run;
    var a :| Run(s, a) == t;
    var b :| Run(t, b) == u;
    RunConcat(s, a, b);
  }

  lemma FollowsStep(s: State, t: State, c: Call)
    requires Follows(s, t) || s == t
    ensures Follows(s, Step(t, c))
  {
    hide Step;
    FollowsSelf(s);
    Lifecycle.RunOne(t, c);
    FollowsTrans(s, t, Step(t, c));
  }

  /** The hash function never changes and time never goes back. */
  lemma StepHost(s: State, c: Call)
    ensures Step(s, c).sha == s.sha && s.now <= Step(s, c).now
  {
  }

  ghost predicate Live(s: State, rid: nat) {
    rid in s.cells && s.cells[rid].round.status in {Open, Revealing}
  }

  lemma FinishedLate(s: State, c: Call, rid: nat)
    requires rid in s.cells && (c == Call.Clear(rid) || c == Call.Void(rid)) && Attempt(s, c).Ok?
    ensures s.now > s.cells[rid].round.revealDeadline
  {
    hide Spec.RefundAll, Spec.BestBid;
  }

  lemma NotSettledLive(s: State, rid: nat)
    requires Live(s, rid)
    ensures Spec.Settle(s, rid).Err?
  {
  }

  lemma OpenedLive(s: State, rid: nat, ok: bool)
    requires Live(s, rid) && Spec.OpenReveal(s, rid, ok).Ok?
    ensures Live(Spec.OpenReveal(s, rid, ok).value, rid)
  {
  }

  lemma OwnCallStaysLive(s: State, c: Call, rid: nat)
    requires Inv(s) && Live(s, rid) && s.now <= s.cells[rid].round.revealDeadline
    requires Lifecycle.Target(s, c) == Some(rid) && !c.CreateRound? && Attempt(s, c).Ok?
    ensures Live(Step(s, c), rid)
  {
    hide Inv, Evolves;
    hide Spec.CreateRound, Spec.Commit, Spec.OpenReveal, Spec.Reveal, Spec.Clear, Spec.Settle, Spec.Void;
    match c {
      case Commit(_, b, h, len, e, blob, r) => CommitEvolves(s, rid, b, h, len, e, blob, r);
      case OpenReveal(_, ok) => OpenedLive(s, rid, ok);
      case Reveal(_, b, v, n) => RevealEvolves(s, rid, b, v, n);
      case Clear(_) => FinishedLate(s, c, rid);
      case Settle(_) => NotSettledLive(s, rid);
      case Void(_) => FinishedLate(s, c, rid);
    }
  }

  /** Only past its reveal deadline can a round be cleared or voided. */
  lemma LeavesLate(s: State, c: Call, rid: nat)
    requires Inv(s) && Live(s, rid) && s.now <= s.cells[rid].round.revealDeadline
    ensures Live(Step(s, c), rid)
  {
    assert s.counter + 1 !in s.cells;
    Lifecycle.CallsStayInTheirRound(s, c);
    if Attempt(s, c).Ok? && Lifecycle.Target(s, c) == Some(rid) {
      OwnCallStaysLive(s, c, rid);
    }
    hide Inv, Attempt, Lifecycle.Tagged;
  }

  /** What holds of everything that may follow a sound state. */
  lemma {:induction false} RunFacts(s: State, calls: seq<Call>)
    requires Inv(s)
    ensures var t := Run(s, calls); Inv(t) && t.sha == s.sha && s.now <= t.now
  {
    hide Inv, Step;
    RunInv(s, calls);
    if calls != [] {
      RunFacts(s, calls[..|calls| - 1]);
      StepHost(Run(s, calls[..|calls| - 1]), calls[|calls| - 1]);
    }
  }

  lemma {:induction false} RunStaysLive(s: State, calls: seq<Call>, rid: nat)
    requires Inv(s) && Live(s, rid) && Run(s, calls).now <= s.cells[rid].round.revealDeadline
    ensures Live(Run(s, calls), rid)
  {
    hide Inv, Step;
    if calls != [] {
      var front, last := calls[..|calls| - 1], calls[|calls| - 1];
      RunFacts(s, front);
      StepHost(Run(s, front), last);
      RunStaysLive(s, front, rid);
      RunEvolves(s, front, rid);
      LeavesLate(Run(s, front), last, rid);
    }
  }

  lemma FollowsFacts(s: State, t: State)
    requires Inv(s) && Follows(s, t)
    ensures Inv(t) && t.sha == s.sha && s.now <= t.now
    ensures forall rid :: rid in s.cells ==>
              && rid in t.cells && Evolves(s.cells[rid], t.cells[rid])
              && Reaches(s.cells[rid].round.status, t.cells[rid].round.status)
  {
    hide Inv, Run, Evolves, Reaches;
    var calls :| Run(s, calls) == t;
    RunFacts(s, calls);
    forall rid | rid in s.cells
      ensures rid in t.cells && Evolves(s.cells[rid], t.cells[rid])
      ensures Reaches(s.cells[rid].round.status, t.cells[rid].round.status)
    {
      RunEvolves(s, calls, rid);
    }
  }

  lemma SoundFollows(s: State, t: State)
    requires Inv(s) && Follows(s, t)
    ensures Inv(t) && t.sha == s.sha && s.now <= t.now
  {
    hide Inv, Follows;
    FollowsFacts(s, t);
  }

  lemma StayedFound(s: State, t: State, id: nat)
    requires Inv(s) && Follows(s, t)
    ensures id in s.cells ==> id in t.cells
  {
    hide Inv, Follows;
    FollowsFacts(s, t);
  }

  lemma FollowsStaysLive(s: State, t: State, rid: nat)
    requires Inv(s) && Follows(s, t) && Live(s, rid) && t.now <= s.cells[rid].round.revealDeadline
    ensures Live(t, rid)
  {
    hide Inv, Run;
    var calls :| Run(s, calls) == t;
    RunStaysLive(s, calls, rid);
  }

  // ---- Whose doing a change of status is -------------------------------------------------------

  ghost predicate HasStatus(s: State, rid: nat, statuses: set<Status>) {
    rid in s.cells && s.cells[rid].round.status in statuses
  }

  ghost predicate PastOpen(s: State, rid: nat) {
    rid in s.cells && s.cells[rid].round.status != Open
  }

  /** These calls change the status of the round. */
  ghost predicate Moves(s: State, calls: seq<Call>, rid: nat) {
    && rid in s.cells && rid in Run(s, calls).cells
    && Run(s, calls).cells[rid].round.status != s.cells[rid].round.status
  }

  /** In some turn from `from` on and before `to`, starting at `s`, others changed the status of the round. */
  ghost predicate OthersMoved(turns: nat -> Turn, from: nat, to: nat, s: State, rid: nat) {
    exists k: nat, t: State :: from <= k < to && Follows(s, t) && Moves(t, turns(k).others, rid)
  }

  /** From `s` to `t` the status of the round is the same, unless others changed it. */
  ghost predicate Kept(turns: nat -> Turn, from: nat, to: nat, s: State, t: State, rid: nat) {
    && from <= to
    && (rid in s.cells ==>
          && rid in t.cells
          && (t.cells[rid].round.status == s.cells[rid].round.status || OthersMoved(turns, from, to, s, rid)))
  }

  lemma KeptSelf(turns: nat -> Turn, k: nat, s: State, rid: nat)
    ensures Kept(turns, k, k, s, s, rid)
  {
  }

  /** One request. */
  lemma KeptTurn(turns: nat -> Turn, k: nat, s: State, rid: nat)
    requires Inv(s)
    ensures Kept(turns, k, k + 1, s, Run(s, turns(k).others), rid)
  {
    var t := Run(s, turns(k).others);
    assert Follows(s, t);
    FollowsFacts(s, t);
    FollowsSelf(s);
    hide Inv, Run, Follows, Evolves, Reaches;
    if rid in s.cells && t.cells[rid].round.status != s.cells[rid].round.status {
      assert Moves(s, turns(k).others, rid);
    }
  }

  /** What others did later on, or in a longer stretch, they did. */
  lemma MovedEarlier(turns: nat -> Turn, from: nat, mid: nat, until: nat, to: nat, s: State, t: State, rid: nat)
    requires Follows(s, t) && from <= mid && until <= to && OthersMoved(turns, mid, until, t, rid)
    ensures OthersMoved(turns, from, to, s, rid)
  {
    hide Follows, Moves;
    var k: nat, u: State :| mid <= k < until && Follows(t, u) && Moves(u, turns(k).others, rid);
    FollowsTrans(s, t, u);
  }

  lemma MovedSince(turns: nat -> Turn, from: nat, mid: nat, to: nat, s: State, rid: nat)
    requires from <= mid
    ensures OthersMoved(turns, mid, to, s, rid) ==> OthersMoved(turns, from, to, s, rid)
  {
    hide Follows, Moves;
  }

  lemma FollowsRun(s: State, calls: seq<Call>)
    ensures Follows(s, Run(s, calls))
  {
  }

  lemma KeptTrans(turns: nat -> Turn, a: nat, b: nat, c: nat, s: State, t: State, u: State, rid: nat)
    requires Follows(s, t) && Kept(turns, a, b, s, t, rid) && Kept(turns, b, c, t, u, rid)
    ensures Kept(turns, a, c, s, u, rid)
  {
    hide Follows, OthersMoved;
    FollowsSelf(s);
    if OthersMoved(turns, a, b, s, rid) {
      MovedEarlier(turns, a, a, b, c, s, s, rid);
    }
    if OthersMoved(turns, b, c, t, rid) {
      MovedEarlier(turns, a, b, c, c, s, t, rid);
    }
  }

  /** The same, of a first stretch that may have changed the status otherwise. */
  lemma KeptMore(turns: nat -> Turn, a: nat, b: nat, c: nat, s: State, t: State, u: State, rid: nat)
    requires Follows(s, t) && a <= b && Kept(turns, b, c, t, u, rid)
    ensures a <= c && (Kept(turns, a, b, s, t, rid) ==> Kept(turns, a, c, s, u, rid))
  {
    hide Follows, OthersMoved;
    if Kept(turns, a, b, s, t, rid) {
      KeptTrans(turns, a, b, c, s, t, u, rid);
    }
  }

  /** The keeper's own reveal, accepted, leaves the status alone. */
  lemma RevealKeepsStatus(s: State, rid: nat, b: Address, v: i128, n: Bytes32)
    requires Attempt(s, Call.Reveal(rid, b, v, n)).Ok?
    ensures var t := Attempt(s, Call.Reveal(rid, b, v, n)).value;
            rid in s.cells && rid in t.cells && t.cells[rid].round.status == s.cells[rid].round.status
  {
  }

  // ---- Which live rounds can still be finished ---------------------------------------------------

  lemma TickTo(s: State, to: u64)
    requires Inv(s) && to >= s.now
    ensures Step(s, Call.Tick(to)) == s.(now := to) && Inv(s.(now := to)) && Follows(s, s.(now := to))
  {
    StepInv(s, Call.Tick(to));
    FollowsStep(s, s, Call.Tick(to));
    hide Inv, Run;
  }

  /** `t` is `s` with the window of round `rid` open: same clock, same deadline. */
  ghost predicate WindowOf(s: State, t: State, rid: nat) {
    && rid in s.cells && rid in t.cells && t.cells[rid].round.status == Revealing
    && t.cells[rid].round.revealDeadline == s.cells[rid].round.revealDeadline && t.now == s.now
  }

  lemma OpenAccepted(s: State, rid: nat)
    requires rid in s.cells && s.cells[rid].round.status == Open && s.now > s.cells[rid].round.commitDeadline
    ensures WindowOf(s, Step(s, Call.OpenReveal(rid, true)), rid)
  {
    assert Attempt(s, Call.OpenReveal(rid, true)) == Spec.OpenReveal(s, rid, true);
  }

  lemma OpenedLate(s: State, rid: nat)
    requires Inv(s) && rid in s.cells && s.cells[rid].round.status == Open && s.now > s.cells[rid].round.commitDeadline
    ensures exists t :: Follows(s, t) && Inv(t) && WindowOf(s, t, rid)
  {
    hide Inv, Run, Step;
    OpenAccepted(s, rid);
    StepInv(s, Call.OpenReveal(rid, true));
    FollowsStep(s, s, Call.OpenReveal(rid, true));
  }

  lemma ClearedLate(s: State, rid: nat)
    requires Inv(s) && rid in s.cells && s.cells[rid].round.status == Revealing
    requires s.now > s.cells[rid].round.revealDeadline
    ensures exists t :: Follows(s, t) && Lifecycle.Drained(t, rid)
  {
    hide Inv, Run, Step, Spec.Clear, Spec.Settle, Lifecycle.Drained, Spec.BestBid;
    var t := Step(s, Call.Clear(rid));
    Lifecycle.ClearCannotFail(s, rid);
    Lifecycle.StepClear(s, rid);
    StepInv(s, Call.Clear(rid));
    FollowsStep(s, s, Call.Clear(rid));
    if !Lifecycle.Drained(t, rid) {
      var u := Step(t, Call.Settle(rid));
      Lifecycle.SettleDrains(t, rid);
      Lifecycle.StepSettle(t, rid);
      FollowsStep(s, t, Call.Settle(rid));
      assert Lifecycle.Drained(u, rid);
    }
  }

  lemma CommitBeforeReveal(s: State, rid: nat)
    requires Inv(s) && rid in s.cells
    ensures s.cells[rid].round.commitDeadline < s.cells[rid].round.revealDeadline
  {
    assert ScheduleOk(s.config, s.cells[rid].round);
  }

  /**
   * A live round can be brought to its end, with nothing locked, by some calls exactly when its reveal
   * deadline is not the last time a u64 can hold. With that deadline every run whatsoever leaves it live.
   */
  lemma LiveRoundFinishableIff(s: State, rid: nat)
    requires Inv(s) && Live(s, rid)
    ensures (exists t :: Follows(s, t) && Lifecycle.Drained(t, rid)) <==> s.cells[rid].round.revealDeadline < TWO_64 - 1
    ensures s.cells[rid].round.revealDeadline == TWO_64 - 1 ==> forall t :: Follows(s, t) ==> Live(t, rid)
  {
    hide Inv, Run;
    if s.cells[rid].round.revealDeadline < TWO_64 - 1 {
      var late := s.(now := TWO_64 - 1);
      TickTo(s, TWO_64 - 1);
      CommitBeforeReveal(s, rid);
      var r := late;
      if s.cells[rid].round.status == Open {
        OpenedLate(late, rid);
        r :| Follows(late, r) && Inv(r) && WindowOf(late, r, rid);
        FollowsTrans(s, late, r);
      }
      ClearedLate(r, rid);
      var t :| Follows(r, t) && Lifecycle.Drained(t, rid);
      FollowsTrans(s, r, t);
    } else {
      forall t | Follows(s, t)
        ensures Live(t, rid)
      {
        FollowsStaysLive(s, t, rid);
      }
    }
  }
}
