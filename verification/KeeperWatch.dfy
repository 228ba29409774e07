/** One tick of the watch loop on one round: void if stale, keep, close; and a few of them in a row. */
module KeeperWatch {
  import opened Prelude
  import opened RoundTypes
  import opened RoundInvariant
  import opened Runs
  import opened Progress
  import opened Interleaving
  import opened KeeperCursor
  import opened KeeperReveal
  import opened KeeperClose
  import opened KeeperVoid
  import Checkpoint

  // ---- One watch tick ------------------------------------------------------------------------------

  /** The outside world of one tick: what the beacon API and the seals give, and the two readings of the clock. */
  datatype Sight = Sight(beacon: Beacon, seals: Address -> SealRead, voidClock: nat, closeClock: nat)

  datatype WatchTick = WatchTick(
    voided: Option<VoidResult>,
    keep: Option<KeeperResult>,
    close: Option<CloseResult>,
    finalStatus: Status)

  /** The calls a tick that reports this made itself, in order. */
  function TickCalls(rid: nat, sight: Sight, t: WatchTick): seq<Call> {
    VoidCalls(rid, t.voided.Some?) + RestCalls(rid, sight, t)
  }

  /** Those of its second and third phase. */
  function RestCalls(rid: nat, sight: Sight, t: WatchTick): seq<Call> {
    KeepPart(rid, sight, t) + ClosePart(rid, t)
  }

  function KeepPart(rid: nat, sight: Sight, t: WatchTick): seq<Call> {
    if t.keep.Some? then KeepCalls(rid, sight.beacon, sight.seals, t.keep.value) else []
  }

  function ClosePart(rid: nat, t: WatchTick): seq<Call> {
    if t.close.Some? then CloseCalls(rid, t.close.value) else []
  }

  /** What a tick reports, read against the chain it leaves. */
  ghost predicate TickTrue(s: State, rid: nat, t: WatchTick) {
    && rid in s.cells && t.finalStatus == s.cells[rid].round.status
    && (t.voided.Some? ==> t.voided.value.voided && HasStatus(s, rid, {Voided}))
    && (t.keep.Some? ==> EachRevealed(s, rid, t.keep.value.revealed))
    && (t.close.Some? && t.close.value.cleared ==> StepTrue(s, rid, Checkpoint.Clear))
    && (t.close.Some? && t.close.value.settled ==> HasStatus(s, rid, {Settled}))
    && (t.close.Some? && t.close.value.voided ==> HasStatus(s, rid, {Voided}))
  }

  /** Whatever others do, a tick that reported the truth goes on doing so, but for the status it ended on. */
  lemma TickFollows(s: State, t: State, rid: nat, tick: WatchTick)
    requires Inv(s) && Follows(s, t) && TickTrue(s, rid, tick)
    ensures rid in t.cells && TickTrue(t, rid, tick.(finalStatus := t.cells[rid].round.status))
  {
    hide Inv, Follows, StepTrue, EachRevealed;
    FollowsFacts(s, t);
    StatusFollows(s, t, rid);
    if tick.keep.Some? {
      EachRevealedFollows(s, t, rid, tick.keep.value.revealed);
    }
    if StepTrue(s, rid, Checkpoint.Clear) {
      StepTrueFollows(s, t, rid, Checkpoint.Clear);
    }
  }

  /** Past this the keeper can finish the round: the reveal deadline, and for an Open round the grace period too. */
  ghost predicate Due(s: State, rid: nat, sight: Sight) {
    && rid in s.cells && s.now > s.cells[rid].round.revealDeadline
    && sight.closeClock > s.cells[rid].round.revealDeadline
    && (s.cells[rid].round.status == Open ==>
          Stale(s, rid) && sight.voidClock > s.cells[rid].round.revealDeadline + VOID_GRACE)
  }

  lemma DueFollows(s: State, t: State, rid: nat, sight: Sight)
    requires Inv(s) && Follows(s, t) && Due(s, rid, sight)
    ensures Due(t, rid, sight)
  {
    hide Inv, Follows;
    FollowsFacts(s, t);
  }

  lemma DueIsClosable(s: State, rid: nat, sight: Sight)
    requires Due(s, rid, sight) && PastOpen(s, rid)
    ensures Closable(s, rid) && sight.closeClock > s.cells[rid].round.revealDeadline
  {
  }

  /** Finished for good. */
  ghost predicate Finished(s: State, rid: nat) {
    HasStatus(s, rid, {Settled, Voided})
  }

  lemma FinishedFollows(s: State, t: State, rid: nat)
    requires Inv(s) && Follows(s, t) && Finished(s, rid)
    ensures Finished(t, rid)
  {
    hide Inv, Follows;
    FollowsFacts(s, t);
  }

  /** Past the reveal window for good: cleared or finished. */
  ghost predicate Ended(s: State, rid: nat) {
    HasStatus(s, rid, {Cleared, Settled, Voided})
  }

  lemma EndedFollows(s: State, t: State, rid: nat)
    requires Inv(s) && Follows(s, t) && Ended(s, rid)
    ensures Ended(t, rid) && PastOpen(s, rid)
  {
    hide Inv, Follows;
    FollowsFacts(s, t);
  }

  lemma FinishedIsEnded(s: State, rid: nat)
    requires Finished(s, rid)
    ensures Ended(s, rid)
  {
  }

  /** Only a round still Open can have the pass void it; if due, its grace period fits a u64. */
  lemma DueFits(s: State, m: State, b: State, rid: nat, sight: Sight, nowSeconds: nat)
    requires Inv(s) && Follows(s, m) && Due(s, rid, sight) && VoidThrows(m, b, rid, nowSeconds)
    ensures rid in s.cells && s.cells[rid].round.revealDeadline + VOID_GRACE < TWO_64
  {
    hide Inv, Follows;
    FollowsFacts(s, m);
  }

  /** Late and past Open, a pass that throws does so on a round that others took past Revealing. */
  lemma KeepThrowIsMove(turns: nat -> Turn, from: nat, to: nat, s: State, t: State, rid: nat, sight: Sight, f: Fault)
    requires Inv(s) && Follows(s, t) && Due(s, rid, sight) && HasStatus(s, rid, {Revealing})
    requires KeepThrows(t, rid, sight.beacon, sight.seals, f) && Kept(turns, from, to, s, t, rid)
    ensures Ended(t, rid) && OthersMoved(turns, from, to, s, rid)
  {
    hide Inv, Follows, KeepThrows, OthersMoved;
    DueFollows(s, t, rid, sight);
    StillPastOpen(s, t, rid);
    LateThrow(t, rid, sight.beacon, sight.seals, f);
  }

  /** The first phase of a tick, and the read that follows it. */
  method VoidStage(chain: Chain, store: Checkpoint.Store?, rid: nat, sight: Sight, clock: string)
    returns (r: Result<WatchTick, Fault>)
    requires Inv(chain.state)
    modifies chain, store
    ensures Follows(old(chain.state), chain.state)
    ensures Grows(old(FileOf(store)), FileOf(store), rid)
    ensures old(StoreTrue(store, chain.state)) ==> StoreTrue(store, chain.state)
    ensures r.Ok? ==> TickTrue(chain.state, rid, r.value) && r.value.keep.None? && r.value.close.None?
    ensures chain.AlwaysUp() && Due(old(chain.state), rid, sight) ==>
              Due(chain.state, rid, sight) && PastOpen(chain.state, rid)
    ensures chain.AlwaysUp() && Due(old(chain.state), rid, sight) && r.Err? ==>
              && OthersMoved(chain.turns, old(chain.asked), chain.asked, old(chain.state), rid)
              && Finished(chain.state, rid)
    ensures chain.asked >= old(chain.asked)
    ensures r.Ok? ==> chain.landed == old(chain.landed) + TickCalls(rid, sight, r.value)
    ensures old(chain.landed) <= chain.landed
  {
    hide Inv, Run, Follows, StoreTrue, Stale, PastOpen, Grows, HasStatus, VoidThrows, OthersMoved, Recorded;
    ghost var start, first, second := chain.state, chain.First(), chain.Second();
    FirstFollows(chain);
    var done := VoidIfStale(chain, store, rid, sight.voidClock, clock);
    ghost var mid := chain.state;
    SoundFollows(start, mid);
    if Due(start, rid, sight) {
      IsPastOpen(start, rid);
      StaleFollows(start, mid, rid);
      DueFollows(start, mid, rid, sight);
    }
    if done.Err? {
      if chain.AlwaysUp() && Due(start, rid, sight) {
        DueFits(start, first, second, rid, sight, sight.voidClock);
        EitherIsFinished(mid, rid);
      }
      return Err(done.error);
    }
    var read := chain.GetRound(rid);
    FollowsTrans(start, mid, chain.state);
    StaleFollows(mid, chain.state, rid);
    StatusFollows(mid, chain.state, rid);
    if Due(mid, rid, sight) {
      DueFollows(mid, chain.state, rid, sight);
    }
    if StoreTrue(store, mid) {
      StoreFollows(mid, chain.state, store);
    }
    if read.Err? {
      return Err(read.error);
    }
    r := Ok(WatchTick(if done.value.voided then Some(done.value) else None, None, None, read.value.status));
  }

  /** The second phase of a tick: `keepRound` on a round read as live, and the read that follows it. */
  method KeepStage(chain: Chain, store: Checkpoint.Store?, rid: nat, sight: Sight, clock: string, tick: WatchTick)
    returns (r: Result<WatchTick, Fault>)
    requires Inv(chain.state) && TickTrue(chain.state, rid, tick) && tick.keep.None? && tick.close.None?
    modifies chain, store
    ensures Follows(old(chain.state), chain.state)
    ensures Grows(old(FileOf(store)), FileOf(store), rid)
    ensures old(StoreTrue(store, chain.state)) ==> StoreTrue(store, chain.state)
    ensures r.Ok? ==> TickTrue(chain.state, rid, r.value) && r.value.close.None?
    ensures chain.AlwaysUp() && Due(old(chain.state), rid, sight) && PastOpen(old(chain.state), rid) && r.Err? ==>
              && OthersMoved(chain.turns, old(chain.asked), chain.asked, old(chain.state), rid)
              && Ended(chain.state, rid) && HasStatus(old(chain.state), rid, {Revealing})
    ensures chain.asked >= old(chain.asked)
    ensures r.Ok? ==>
              && (r.value.keep.Some? <==> tick.finalStatus in {Open, Revealing}) && r.value.voided == tick.voided
              && chain.landed == old(chain.landed) + KeepPart(rid, sight, r.value)
    ensures old(chain.landed) <= chain.landed
  {
    hide Inv, Run, Follows, StoreTrue, Grows, StepTrue, EachRevealed, SomeOverbid, EachAnswered;
    hide InTime, HasStatus, Swept, Kept, KeepThrows, OthersMoved;
    ghost var start, from := chain.state, chain.asked;
    if tick.finalStatus != Open && tick.finalStatus != Revealing {
      NothingGrown(FileOf(store), rid);
      FollowsSelf(start);
      return Ok(tick);
    }
    var kept := KeepRound(chain, store, rid, sight.beacon, sight.seals, clock);
    ghost var mid := chain.state;
    SoundFollows(start, mid);
    TickFollows(start, mid, rid, tick);
    if kept.Err? {
      if chain.AlwaysUp() && Due(start, rid, sight) && PastOpen(start, rid) {
        LiveIsRevealing(start, rid);
        KeepThrowIsMove(chain.turns, from, chain.asked, start, mid, rid, sight, kept.error);
      }
      return Err(kept.error);
    }
    var done := tick.(keep := Some(kept.value), finalStatus := kept.value.finalStatus);
    var read := chain.GetRound(rid);
    FollowsTrans(start, mid, chain.state);
    TickFollows(mid, chain.state, rid, done);
    StayedFound(start, chain.state, rid);
    if StoreTrue(store, mid) {
      StoreFollows(mid, chain.state, store);
    }
    if read.Err? {
      return Err(read.error);
    }
    r := Ok(done.(finalStatus := read.value.status));
  }

  /** The third phase of a tick: `closeRound` on a round read as Revealing or Cleared, and the read that follows it. */
  method CloseStage(chain: Chain, store: Checkpoint.Store?, rid: nat, sight: Sight, clock: string, tick: WatchTick)
    returns (r: Result<WatchTick, Fault>)
    requires Inv(chain.state) && TickTrue(chain.state, rid, tick) && tick.close.None?
    modifies chain, store
    ensures Follows(old(chain.state), chain.state)
    ensures Grows(old(FileOf(store)), FileOf(store), rid)
    ensures old(StoreTrue(store, chain.state)) ==> StoreTrue(store, chain.state)
    ensures r.Ok? && old(StoreTrue(store, chain.state)) ==> TickTrue(chain.state, rid, r.value)
    ensures var s := old(chain.state);
            chain.AlwaysUp() && Due(s, rid, sight) && PastOpen(s, rid) && old(StoreTrue(store, chain.state)) ==>
              Finished(chain.state, rid)
    ensures chain.AlwaysUp() && r.Err? ==>
              OthersMoved(chain.turns, old(chain.asked), chain.asked, old(chain.state), rid)
    ensures chain.asked >= old(chain.asked)
    ensures r.Ok? ==>
              && (r.value.close.Some? <==> tick.finalStatus in {Revealing, Cleared})
              && r.value.voided == tick.voided && r.value.keep == tick.keep
              && (r.value.close.None? ==> r.value.finalStatus == tick.finalStatus)
              && chain.landed == old(chain.landed) + ClosePart(rid, r.value)
    ensures old(chain.landed) <= chain.landed
  {
    hide Run, OthersMoved, CloseThrows, CloseCalls, StepAlreadyDone, Recorded;
    hide Inv, Follows, StoreTrue, Grows, StepTrue, EachRevealed, Closable;
    ghost var start := chain.state;
    if tick.finalStatus != Revealing && tick.finalStatus != Cleared {
      NothingGrown(FileOf(store), rid);
      FollowsSelf(start);
      return Ok(tick);
    }
    if Due(start, rid, sight) && PastOpen(start, rid) {
      DueIsClosable(start, rid, sight);
    }
    var closed := CloseRound(chain, store, rid, sight.closeClock, clock);
    ghost var mid := chain.state;
    SoundFollows(start, mid);
    TickFollows(start, mid, rid, tick);
    if closed.Err? {
      return Err(closed.error);
    }
    var done := tick.(close := Some(closed.value), finalStatus := closed.value.finalStatus);
    var read := chain.GetRound(rid);
    FollowsTrans(start, mid, chain.state);
    if TickTrue(mid, rid, done) {
      TickFollows(mid, chain.state, rid, done);
    }
    if StoreTrue(store, mid) {
      StoreFollows(mid, chain.state, store);
    }
    if Finished(mid, rid) {
      FinishedFollows(mid, chain.state, rid);
    }
    StayedFound(start, chain.state, rid);
    if read.Err? {
      return Err(read.error);
    }
    r := Ok(done.(finalStatus := read.value.status));
  }

  /**
   * `watchRound`: void if stale, keep, close. A true cursor stays true and the tick reports what happened. When
   * no request is lost, a tick on a round that is due leaves it Settled or Voided unless the tick throws. It
   * throws only when others changed the status of the round during it, and even then leaves it at least Cleared;
   * from there a due tick finishes the round whether or not it throws.
   */
  method WatchRound(chain: Chain, store: Checkpoint.Store?, rid: nat, sight: Sight, clock: string)
    returns (r: Result<WatchTick, Fault>)
    requires Inv(chain.state)
    modifies chain, store
    ensures Follows(old(chain.state), chain.state)
    ensures Grows(old(FileOf(store)), FileOf(store), rid)
    ensures old(StoreTrue(store, chain.state)) ==> StoreTrue(store, chain.state)
    ensures r.Ok? && old(StoreTrue(store, chain.state)) ==> TickTrue(chain.state, rid, r.value)
    ensures chain.AlwaysUp() && Due(old(chain.state), rid, sight) ==> PastOpen(chain.state, rid)
    ensures chain.AlwaysUp() && Due(old(chain.state), rid, sight) && old(StoreTrue(store, chain.state)) ==>
              && Ended(chain.state, rid)
              && (r.Ok? || Ended(old(chain.state), rid) ==> Finished(chain.state, rid))
              && (r.Err? ==> OthersMoved(chain.turns, old(chain.asked), chain.asked, old(chain.state), rid))
    ensures r.Ok? ==>
              && chain.landed == old(chain.landed) + TickCalls(rid, sight, r.value)
              && (r.value.keep.None? ==> Ended(chain.state, rid))
              && (r.value.close.None? ==> r.value.finalStatus in {Open, Settled, Voided})
    ensures old(chain.landed) <= chain.landed
  {
    hide TickCalls, RestCalls, Grows, Run;
    hide Inv, Follows, StoreTrue, TickTrue, Due, PastOpen, Finished, Ended, HasStatus, OthersMoved;
    ghost var start, from, was, sent := chain.state, chain.asked, FileOf(store), chain.landed;
    var voided := VoidStage(chain, store, rid, sight, clock);
    ghost var mid, turn, kept, between := chain.state, chain.asked, FileOf(store), chain.landed;
    SoundFollows(start, mid);
    if Finished(mid, rid) {
      FinishedIsEnded(mid, rid);
    }
    if voided.Err? {
      return Err(voided.error);
    }
    r := WatchRest(chain, store, rid, sight, clock, voided.value);
    FollowsTrans(start, mid, chain.state);
    GrowsTrans(was, kept, FileOf(store), rid);
    LaterMove(chain.turns, from, turn, chain.asked, start, mid, rid);
    if Ended(start, rid) {
      EndedFollows(start, mid, rid);
    }
    assert sent <= between <= chain.landed;
    if r.Ok? {
      TickCallsSplit(rid, sight, voided.value, r.value);
    }
  }

  lemma TickCallsSplit(rid: nat, sight: Sight, first: WatchTick, t: WatchTick)
    requires first.keep.None? && first.close.None? && t.voided == first.voided
    ensures TickCalls(rid, sight, t) == TickCalls(rid, sight, first) + RestCalls(rid, sight, t)
  {
    assert RestCalls(rid, sight, first) == [];
    hide VoidCalls, RestCalls;
    var own := VoidCalls(rid, t.voided.Some?);
    assert own + [] == own;
  }

  /** A tick from the read that follows its first phase on. */
  method WatchRest(chain: Chain, store: Checkpoint.Store?, rid: nat, sight: Sight, clock: string, tick: WatchTick)
    returns (r: Result<WatchTick, Fault>)
    requires Inv(chain.state) && TickTrue(chain.state, rid, tick) && tick.keep.None? && tick.close.None?
    modifies chain, store
    ensures Follows(old(chain.state), chain.state)
    ensures Grows(old(FileOf(store)), FileOf(store), rid)
    ensures old(StoreTrue(store, chain.state)) ==> StoreTrue(store, chain.state)
    ensures r.Ok? && old(StoreTrue(store, chain.state)) ==> TickTrue(chain.state, rid, r.value)
    ensures PastOpen(old(chain.state), rid) ==> PastOpen(chain.state, rid)
    ensures chain.AlwaysUp() && Due(old(chain.state), rid, sight) && PastOpen(old(chain.state), rid)
            && old(StoreTrue(store, chain.state)) ==>
              && Ended(chain.state, rid)
              && (r.Ok? || Ended(old(chain.state), rid) ==> Finished(chain.state, rid))
              && (r.Err? ==> OthersMoved(chain.turns, old(chain.asked), chain.asked, old(chain.state), rid))
    ensures r.Ok? ==>
              && chain.landed == old(chain.landed) + RestCalls(rid, sight, r.value) && r.value.voided == tick.voided
              && (r.value.keep.None? ==> Ended(chain.state, rid))
              && (r.value.close.None? ==> r.value.finalStatus in {Open, Settled, Voided})
    ensures old(chain.landed) <= chain.landed && chain.asked >= old(chain.asked)
  {
    hide KeepPart, ClosePart, RestCalls, Grows, Run;
    hide Inv, Follows, StoreTrue, TickTrue, Due, PastOpen, Finished, Ended, HasStatus, OthersMoved;
    ghost var mid, turn, was, sent := chain.state, chain.asked, FileOf(store), chain.landed;
    EndedIff(mid, rid, tick);
    var kept := KeepStage(chain, store, rid, sight, clock, tick);
    ghost var late, before, file, between := chain.state, chain.asked, FileOf(store), chain.landed;
    SoundFollows(mid, late);
    StaleFollows(mid, late, rid);
    if Ended(mid, rid) {
      EndedFollows(mid, late, rid);
    }
    if Due(mid, rid, sight) {
      DueFollows(mid, late, rid, sight);
    }
    if HasStatus(mid, rid, {Revealing}) {
      FollowsSelf(mid);
      RevealingNotEnded(mid, mid, rid);
    }
    if kept.Err? {
      return Err(kept.error);
    }
    r := CloseStage(chain, store, rid, sight, clock, kept.value);
    FollowsTrans(mid, late, chain.state);
    GrowsTrans(was, file, FileOf(store), rid);
    StaleFollows(late, chain.state, rid);
    LaterMove(chain.turns, turn, before, chain.asked, mid, late, rid);
    if Ended(late, rid) {
      EndedFollows(late, chain.state, rid);
    }
    if Finished(chain.state, rid) {
      FinishedIsEnded(chain.state, rid);
    }
    PrefixTrans(sent, between, chain.landed);
    if r.Ok? {
      RestLanded(sent, between, chain.landed, rid, sight, kept.value, r.value);
    }
  }

  lemma RestLanded(before: seq<Call>, between: seq<Call>, after: seq<Call>, rid: nat, sight: Sight, t: WatchTick,
          u: WatchTick)
    requires between == before + KeepPart(rid, sight, t) && after == between + ClosePart(rid, u) && t.keep == u.keep
    ensures after == before + RestCalls(rid, sight, u)
  {
    assert KeepPart(rid, sight, t) == KeepPart(rid, sight, u);
    hide KeepPart, ClosePart;
  }

  lemma EndedIff(s: State, rid: nat, tick: WatchTick)
    requires TickTrue(s, rid, tick)
    ensures Ended(s, rid) <==> tick.finalStatus !in {Open, Revealing}
  {
  }

  lemma FirstFollows(chain: Chain)
    ensures Follows(chain.state, chain.First())
  {
  }

  lemma EitherIsFinished(s: State, rid: nat)
    ensures HasStatus(s, rid, {Voided, Settled}) <==> Finished(s, rid)
  {
  }

  lemma LiveIsRevealing(s: State, rid: nat)
    ensures PastOpen(s, rid) && s.cells[rid].round.status in {Open, Revealing} ==> HasStatus(s, rid, {Revealing})
  {
  }

  lemma RevealingNotEnded(s: State, t: State, rid: nat)
    requires Inv(s) && Follows(s, t) && HasStatus(t, rid, {Revealing})
    ensures !Ended(s, rid)
  {
    hide Inv, Follows;
    FollowsFacts(s, t);
  }

  lemma LaterMove(turns: nat -> Turn, from: nat, mid: nat, to: nat, s: State, t: State, rid: nat)
    requires Follows(s, t) && from <= mid
    ensures OthersMoved(turns, mid, to, t, rid) ==> OthersMoved(turns, from, to, s, rid)
  {
    hide Follows, OthersMoved;
    if OthersMoved(turns, mid, to, t, rid) {
      MovedEarlier(turns, from, mid, to, to, s, t, rid);
    }
  }

  /**
   * Ticks on one round, each thrown error caught as the watch loop does. When no request is lost, two ticks on a
   * round that is due finish it, whatever others do between and during them.
   */
  method WatchTicks(chain: Chain, store: Checkpoint.Store?, rid: nat, sights: seq<Sight>, clock: string)
    requires Inv(chain.state)
    modifies chain, store
    ensures Follows(old(chain.state), chain.state)
    ensures old(StoreTrue(store, chain.state)) ==> StoreTrue(store, chain.state)
    ensures var s := old(chain.state);
            && chain.AlwaysUp() && |sights| >= 2 && (forall i :: 0 <= i < |sights| ==> Due(s, rid, sights[i]))
            && old(StoreTrue(store, chain.state)) ==>
              Finished(chain.state, rid)
  {
    hide Inv, Follows, StoreTrue, TickTrue, Due, PastOpen, Finished, Ended, OthersMoved, Grows;
    ghost var start := chain.state;
    ghost var ready := chain.AlwaysUp() && StoreTrue(store, start)
                       && forall i :: 0 <= i < |sights| ==> Due(start, rid, sights[i]);
    FollowsSelf(start);
    for i := 0 to |sights|
      invariant Inv(chain.state) && Follows(start, chain.state)
      invariant old(StoreTrue(store, chain.state)) ==> StoreTrue(store, chain.state)
      invariant ready && i >= 1 ==> Ended(chain.state, rid)
      invariant ready && i >= 2 ==> Finished(chain.state, rid)
    {
      ghost var mid := chain.state;
      if ready {
        DueFollows(start, mid, rid, sights[i]);
      }
      var _ := WatchRound(chain, store, rid, sights[i], clock);
      FollowsTrans(start, mid, chain.state);
      SoundFollows(mid, chain.state);
    }
  }
}
