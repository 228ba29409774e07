/** `closeRound`: clear and settle a round, record what is proved done. */
module KeeperClose {
  import opened Prelude
  import opened RoundTypes
  import Spec = RoundSpec
  import opened RoundInvariant
  import opened Runs
  import opened Progress
  import opened Interleaving
  import opened KeeperCursor
  import Checkpoint
  import Lifecycle

  // ---- closeRound ------------------------------------------------------------------------------------

  datatype CloseSkip =
    | ClearByCheckpoint | WindowStillOpen | ClearSkipped(error: Fault)
    | SettleByCheckpoint | SettleSkipped(error: Fault)
    | SettledBefore | VoidedBefore

  datatype CloseResult = CloseResult(
    cleared: bool,
    settled: bool,
    voided: bool,
    winner: Option<Address>,
    finalStatus: Status,
    skipped: seq<CloseSkip>)

  /** What a `clear` established: the round is past it, and the winner it returned is the round's. */
  lemma ClearAccepted(s: State, rid: nat)
    requires Spec.Clear(s, rid).Ok?
    ensures var (t, winner) := Spec.Clear(s, rid).value;
            && StepTrue(t, rid, Checkpoint.Clear)
            && (winner.None? ==> HasStatus(t, rid, {Voided}))
            && (winner.Some? ==> HasStatus(t, rid, {Cleared}) && t.cells[rid].round.winner == winner)
  {
    hide Spec.BestBid, Spec.EnsureLedger, Spec.ProveConserved, Spec.RefundEach, Spec.Drained;
  }

  /** `clear` says "already cleared" only of a cleared round; late, only finished rounds refuse otherwise. */
  lemma ClearRefused(s: State, rid: nat)
    requires Inv(s) && Spec.Clear(s, rid).Err?
    ensures var e := Spec.Clear(s, rid).error;
            && (e == AlreadyCleared ==> HasStatus(s, rid, {Cleared}))
            && (rid in s.cells && s.cells[rid].round.status != Open && s.now > s.cells[rid].round.revealDeadline ==>
                  || (e == AlreadyCleared && HasStatus(s, rid, {Cleared}))
                  || (e == AlreadySettled && HasStatus(s, rid, {Settled}))
                  || (e == RoundVoided && HasStatus(s, rid, {Voided})))
  {
    if rid in s.cells && s.cells[rid].round.status == Revealing && s.now > s.cells[rid].round.revealDeadline {
      Lifecycle.ClearCannotFail(s, rid);
    }
    hide Inv, Spec.RefundAll, Spec.BestBid;
  }

  lemma SettleAccepted(s: State, rid: nat)
    requires Spec.Settle(s, rid).Ok?
    ensures StepTrue(Spec.Settle(s, rid).value, rid, Checkpoint.Settle)
            && HasStatus(Spec.Settle(s, rid).value, rid, {Settled})
  {
    hide Spec.SettleChecks, Spec.SettleAll, Spec.Drained;
  }

  /** Once cleared, a round refuses `settle` only because it is settled. */
  lemma SettleRefused(s: State, rid: nat)
    requires Inv(s) && Spec.Settle(s, rid).Err?
    ensures var e := Spec.Settle(s, rid).error;
            && (e == AlreadySettled ==> HasStatus(s, rid, {Settled}))
            && (HasStatus(s, rid, {Cleared, Settled}) ==> e == AlreadySettled)
  {
    if HasStatus(s, rid, {Cleared}) {
      Lifecycle.SettleDrains(s, rid);
    }
    hide Inv, Spec.SettleCleared;
  }

  /** From which states `closeRound` can finish a round: revealing or further, past the reveal deadline. */
  ghost predicate Closable(s: State, rid: nat) {
    rid in s.cells && s.cells[rid].round.status != Open && s.now > s.cells[rid].round.revealDeadline
  }

  lemma ClosableFollows(s: State, t: State, rid: nat)
    requires Inv(s) && Follows(s, t) && Closable(s, rid)
    ensures Closable(t, rid)
  {
    hide Inv, Follows;
    FollowsFacts(s, t);
  }

  /** Finished stays finished; a cleared round keeps its winner. */
  lemma StatusFollows(s: State, t: State, rid: nat)
    requires Inv(s) && Follows(s, t)
    ensures Inv(t)
    ensures HasStatus(s, rid, {Settled}) ==> HasStatus(t, rid, {Settled})
    ensures HasStatus(s, rid, {Voided}) ==> HasStatus(t, rid, {Voided})
    ensures HasStatus(s, rid, {Cleared, Settled}) ==>
              HasStatus(t, rid, {Cleared, Settled}) && t.cells[rid].round.winner == s.cells[rid].round.winner
  {
    hide Inv, Follows;
    FollowsFacts(s, t);
  }

  ghost predicate ClearReport(s: State, rid: nat, r: CloseResult) {
    && (r.cleared ==> StepTrue(s, rid, Checkpoint.Clear))
    && (r.voided ==> r.cleared && HasStatus(s, rid, {Voided}))
    && (r.cleared && !r.voided ==> HasStatus(s, rid, {Cleared, Settled}))
    && (r.winner.Some? ==> HasStatus(s, rid, {Cleared, Settled}) && s.cells[rid].round.winner == r.winner)
    && !r.settled && ClearByCheckpoint !in r.skipped && SettleByCheckpoint !in r.skipped
  }

  /** The refusals of `clear` that leave the pass nothing to do. */
  predicate ClearTolerates(f: Fault) {
    f.Refused? && f.error in {AlreadyCleared, RevealStillOpen, WrongStatus, RoundVoided}
  }

  lemma AcceptedReport(s: State, rid: nat)
    requires Spec.Clear(s, rid).Ok?
    ensures var (t, winner) := Spec.Clear(s, rid).value;
            StepTrue(t, rid, Checkpoint.Clear)
            && ClearReport(t, rid, CloseResult(true, false, winner.None?, winner, Revealing, []))
  {
    hide Spec.Clear, StepTrue;
    ClearAccepted(s, rid);
    var (t, winner) := Spec.Clear(s, rid).value;
    assert winner.Some? ==> HasStatus(t, rid, {Cleared, Settled});
  }

  lemma RefusedReport(s: State, t: State, rid: nat, e: Error)
    requires Inv(s) && Follows(s, t) && Spec.Clear(t, rid) == Err(e)
    ensures ClearReport(t, rid, CloseResult(false, false, false, None, Revealing, [ClearSkipped(Refused(e))]))
    ensures e == AlreadyCleared ==> StepTrue(t, rid, Checkpoint.Clear)
    ensures Closable(s, rid) ==>
              if ClearTolerates(Refused(e)) then StepTrue(t, rid, Checkpoint.Clear)
              else e == AlreadySettled && HasStatus(t, rid, {Settled})
  {
    hide Inv, Follows, Spec.Clear, Evolves, Reaches;
    FollowsFacts(s, t);
    ClearRefused(t, rid);
    if Closable(s, rid) {
      ClosableFollows(s, t, rid);
    }
  }

  /** Past Open, `clear` is refused for a reason the pass does not tolerate exactly on a settled round. */
  lemma ClearFailsIff(s: State, rid: nat)
    requires Inv(s) && PastOpen(s, rid)
    ensures (Spec.Clear(s, rid).Err? && !ClearTolerates(Refused(Spec.Clear(s, rid).error))) <==>
            HasStatus(s, rid, {Settled})
  {
    if s.cells[rid].round.status == Revealing && s.now > s.cells[rid].round.revealDeadline {
      Lifecycle.ClearCannotFail(s, rid);
    }
    hide Inv, Spec.RefundAll, Spec.BestBid;
  }

  lemma StaysPastOpen(s: State, t: State, rid: nat)
    requires Inv(s) && Follows(s, t) && PastOpen(s, rid)
    ensures Inv(t) && PastOpen(t, rid)
  {
    hide Inv, Follows;
    FollowsFacts(s, t);
  }

  function ClearCalls(rid: nat, cleared: bool): seq<Call> {
    if cleared then [Call.Clear(rid)] else []
  }

  function SettleCalls(rid: nat, settled: bool): seq<Call> {
    if settled then [Call.Settle(rid)] else []
  }

  /** The calls a pass that reports this made itself. */
  function CloseCalls(rid: nat, r: CloseResult): seq<Call> {
    ClearCalls(rid, r.cleared) + SettleCalls(rid, r.settled)
  }

  /** The pass reads the round in `m`, decides to clear it, and its `clear` meets `b`. */
  ghost predicate CloseThrows(m: State, b: State, rid: nat, nowSeconds: nat) {
    && HasStatus(m, rid, {Revealing}) && nowSeconds > m.cells[rid].round.revealDeadline
    && HasStatus(b, rid, {Settled})
  }

  /** The round is known to be cleared: by this pass, or by its own account. */
  ghost predicate ClearDone(r: Result<CloseResult, Fault>) {
    r.Ok? && (r.value.cleared || ClearSkipped(Refused(AlreadyCleared)) in r.value.skipped)
  }

  /** The round is known to be settled: by this pass, or by its own account. */
  ghost predicate SettleDone(settled: bool, skipped: seq<CloseSkip>) {
    settled || SettleSkipped(Refused(AlreadySettled)) in skipped
  }

  /** What the clear phase reports of an answered `clear`. */
  function ClearOutcome(rid: nat, answer: Result<(State, Option<Address>), Error>): Result<CloseResult, Fault> {
    match answer
    case Ok((_, winner)) => Ok(CloseResult(true, false, winner.None?, winner, Revealing, []))
    case Err(e) =>
      if e in {AlreadyCleared, RevealStillOpen, WrongStatus, RoundVoided}
      then Ok(CloseResult(false, false, false, None, Revealing, [ClearSkipped(Refused(e))]))
      else Err(Refused(e))
  }

  /** Submit `clear`, tolerate refusals that leave nothing to do, record what is proved done. */
  method ClearPhase(chain: Chain, store: Checkpoint.Store?, rid: nat,
          clock: string) returns (r: Result<CloseResult, Fault>)
    requires Inv(chain.state)
    modifies chain, store
    ensures Follows(old(chain.state), chain.state)
    ensures Grows(old(FileOf(store)), FileOf(store), rid)
    ensures old(StoreTrue(store, chain.state)) ==> StoreTrue(store, chain.state)
    ensures r.Ok? ==>
              ClearReport(chain.state, rid, r.value) && (r.value.cleared ==> Recorded(store, rid, Checkpoint.Clear))
    ensures chain.AlwaysUp() && Closable(old(chain.state), rid) ==>
              if r.Ok? then StepTrue(chain.state, rid, Checkpoint.Clear)
              else r.error == Refused(AlreadySettled) && HasStatus(chain.state, rid, {Settled})
    ensures chain.AlwaysUp() && PastOpen(old(chain.state), rid) ==>
              (r.Err? <==> HasStatus(old(chain.First()), rid, {Settled}))
    ensures chain.asked == old(chain.asked) + 1
    ensures chain.landed == old(chain.landed) + ClearCalls(rid, r.Ok? && r.value.cleared)
    ensures chain.AlwaysUp() ==> r == ClearOutcome(rid, Spec.Clear(old(chain.First()), rid))
    ensures r.Ok? ==> ClearSkips(r.value.skipped)
    ensures store != null ==>
              Adds(old(FileOf(store)), FileOf(store), rid, if ClearDone(r) then {Checkpoint.Clear} else {})
  {
    hide Adds;
    NothingAdded(FileOf(store), rid);
    hide Inv, Follows, Spec.Clear, StoreTrue, StepTrue, ClearReport, Closable, HasStatus, Run, PastOpen;
    ghost var start := chain.state;
    ghost var before: State;
    var sent: Result<Option<Address>, Fault>;
    sent, before := chain.Clear(rid);
    if StoreTrue(store, start) {
      StoreFollows(start, chain.state, store);
    }
    if PastOpen(start, rid) {
      StaysPastOpen(start, before, rid);
      ClearFailsIff(before, rid);
    }
    if sent.Ok? {
      AcceptedReport(before, rid);
      RecordStep(store, rid, Checkpoint.Clear, clock, chain.state);
      r := Ok(CloseResult(true, false, sent.value.None?, sent.value, Revealing, []));
    } else {
      if sent.error.Refused? {
        RefusedReport(start, before, rid, sent.error.error);
      }
      if !ClearTolerates(sent.error) {
        return Err(sent.error);
      }
      if sent.error == Refused(AlreadyCleared) {
        RecordStep(store, rid, Checkpoint.Clear, clock, chain.state);
      }
      r := Ok(CloseResult(false, false, false, None, Revealing, [ClearSkipped(sent.error)]));
    }
  }

  /** A true cursor is never ahead of a round the keeper has just read. */
  lemma CursorNotAhead(s: State, f: Checkpoint.File, rid: nat)
    requires CursorTrue(s, f) && rid in s.cells
    ensures s.cells[rid].round.status == Revealing ==> !Checkpoint.HasStep(Checkpoint.EntryOf(f, rid), Checkpoint.Clear)
    ensures s.cells[rid].round.status == Cleared ==> !Checkpoint.HasStep(Checkpoint.EntryOf(f, rid), Checkpoint.Settle)
  {
  }

  lemma ReportFollows(s: State, t: State, rid: nat, r: CloseResult)
    requires Inv(s) && Follows(s, t) && ClearReport(s, rid, r)
    ensures ClearReport(t, rid, r)
  {
    hide Inv, Follows, StepTrue;
    StatusFollows(s, t, rid);
    if r.cleared {
      StepTrueFollows(s, t, rid, Checkpoint.Clear);
    }
  }

  /** Phase C of `closeRound`, entered with the round read as Revealing, and the read that follows it. */
  method ClearStage(chain: Chain, store: Checkpoint.Store?, rid: nat, clock: string)
    returns (r: Result<(CloseResult, Round), Fault>)
    requires Inv(chain.state)
    requires rid in chain.state.cells && chain.state.cells[rid].round.status == Revealing
    modifies chain, store
    ensures Follows(old(chain.state), chain.state)
    ensures Grows(old(FileOf(store)), FileOf(store), rid)
    ensures old(StoreTrue(store, chain.state)) ==> StoreTrue(store, chain.state)
    ensures r.Ok? ==> rid in chain.state.cells && r.value.1 == chain.state.cells[rid].round
    ensures r.Ok? ==> !r.value.0.settled && (r.value.0.cleared ==> Recorded(store, rid, Checkpoint.Clear))
    ensures r.Ok? && old(StoreTrue(store, chain.state)) ==> ClearReport(chain.state, rid, r.value.0)
    ensures chain.AlwaysUp() && Closable(old(chain.state), rid) && old(StoreTrue(store, chain.state)) ==>
              if r.Ok? then StepTrue(chain.state, rid, Checkpoint.Clear)
              else r.error == Refused(AlreadySettled) && HasStatus(chain.state, rid, {Settled})
    ensures chain.AlwaysUp() ==>
              (r.Err? <==>
                && !old(StepAlreadyDone(store, rid, Checkpoint.Clear))
                && HasStatus(old(chain.First()), rid, {Settled}))
    ensures r.Err? && chain.AlwaysUp() ==> chain.asked == old(chain.asked) + 1
    ensures chain.asked > old(chain.asked)
    ensures r.Ok? ==> chain.landed == old(chain.landed) + ClearCalls(rid, r.value.0.cleared)
    ensures r.Ok? ==> ClearSkips(r.value.0.skipped)
    ensures old(chain.landed) <= chain.landed
  {
    hide Run;
    hide Inv, Follows, HasStatus, CursorTrue, StepTrue, Checkpoint.FileIn, Checkpoint.Loadable;
    ghost var start := chain.state;
    var done := CloseResult(false, false, false, None, Revealing, [ClearByCheckpoint]);
    if StoreTrue(store, start) && store != null {
      CursorNotAhead(start, store.data, rid);
    }
    if !StepAlreadyDone(store, rid, Checkpoint.Clear) {
      var sent := ClearPhase(chain, store, rid, clock);
      if sent.Err? {
        return Err(sent.error);
      }
      done := sent.value;
    }
    r := RereadAfterClear(chain, store, rid, done, start);
  }

  method RereadAfterClear(chain: Chain, store: Checkpoint.Store?, rid: nat, done: CloseResult, ghost start: State)
    returns (r: Result<(CloseResult, Round), Fault>)
    requires Inv(start) && (chain.state == start || Follows(start, chain.state))
    modifies chain
    ensures Follows(start, chain.state)
    ensures old(StoreTrue(store, chain.state)) ==> StoreTrue(store, chain.state)
    ensures r.Ok? ==> rid in chain.state.cells && r.value == (done, chain.state.cells[rid].round)
    ensures ClearReport(old(chain.state), rid, done) ==> ClearReport(chain.state, rid, done)
    ensures StepTrue(old(chain.state), rid, Checkpoint.Clear) ==> StepTrue(chain.state, rid, Checkpoint.Clear)
    ensures chain.AlwaysUp() && rid in start.cells ==> r.Ok?
    ensures chain.asked == old(chain.asked) + 1
    ensures chain.landed == old(chain.landed)
  {
    hide Inv, Run, Follows, ClearReport, HasStatus, StepTrue, StoreTrue;
    FollowsSelf(start);
    ghost var late := chain.state;
    FollowsFacts(start, late);
    var read := chain.GetRound(rid);
    FollowsTrans(start, late, chain.state);
    FollowsFacts(start, chain.state);
    if StoreTrue(store, late) {
      StoreFollows(late, chain.state, store);
    }
    if ClearReport(late, rid, done) {
      ReportFollows(late, chain.state, rid, done);
    }
    if StepTrue(late, rid, Checkpoint.Clear) {
      StepTrueFollows(late, chain.state, rid, Checkpoint.Clear);
    }
    r := if read.Err? then Err(read.error) else Ok((done, read.value));
  }

  ghost predicate SettleReport(s: State, rid: nat, settled: bool, skipped: seq<CloseSkip>) {
    && (settled ==> HasStatus(s, rid, {Settled}))
    && SettleByCheckpoint !in skipped && ClearByCheckpoint !in skipped
  }

  lemma AttemptSettle(s: State, rid: nat)
    ensures Attempt(s, Call.Settle(rid)) == Spec.Settle(s, rid)
  {
  }

  lemma SettledIsTrue(s: State, rid: nat)
    requires HasStatus(s, rid, {Settled})
    ensures StepTrue(s, rid, Checkpoint.Settle)
  {
  }

  /** The refusals of `settle` that leave the pass nothing to do. */
  predicate SettleTolerates(f: Fault) {
    f.Refused? && (f.error == AlreadySettled || f.error == NotCleared || f.error == WrongStatus)
  }

  /** Submit `settle`, tolerate refusals, record what is proved done. */
  method SettlePhase(chain: Chain, store: Checkpoint.Store?, rid: nat, clock: string)
    returns (r: Result<(), Fault>, settled: bool, skipped: seq<CloseSkip>)
    requires Inv(chain.state)
    modifies chain, store
    ensures Follows(old(chain.state), chain.state)
    ensures Grows(old(FileOf(store)), FileOf(store), rid)
    ensures old(StoreTrue(store, chain.state)) ==> StoreTrue(store, chain.state)
    ensures SettleReport(chain.state, rid, settled, skipped) && (settled ==> Recorded(store, rid, Checkpoint.Settle))
    ensures chain.AlwaysUp() && HasStatus(old(chain.state), rid, {Cleared, Settled}) ==>
              r.Ok? && HasStatus(chain.state, rid, {Settled})
    ensures chain.asked == old(chain.asked) + 1
    ensures chain.landed == old(chain.landed) + SettleCalls(rid, settled)
    ensures chain.AlwaysUp() ==>
              match Spec.Settle(old(chain.First()), rid)
              case Ok(_) => r == Ok(()) && settled && skipped == []
              case Err(e) =>
                && r == (if e in {AlreadySettled, NotCleared, WrongStatus} then Ok(()) else Err(Refused(e)))
                && !settled && skipped == if r.Ok? then [SettleSkipped(Refused(e))] else []
    ensures SettleSkips(skipped)
    ensures store != null ==>
              Adds(old(FileOf(store)), FileOf(store), rid,
                   if SettleDone(settled, skipped) then {Checkpoint.Settle} else {})
    ensures r.Ok? ==> (settled <==> skipped == [])
  {
    hide Adds;
    NothingAdded(FileOf(store), rid);
    hide Inv, Run, Follows, Spec.Settle, Attempt, StoreTrue, StepTrue, HasStatus;
    settled, skipped := false, [];
    ghost var start := chain.state;
    ghost var before: State;
    var sent: Result<(), Fault>;
    sent, before := chain.Submit(Call.Settle(rid));
    AttemptSettle(before, rid);
    StatusFollows(start, before, rid);
    if StoreTrue(store, start) {
      StoreFollows(start, chain.state, store);
    }
    if sent.Ok? {
      SettleAccepted(before, rid);
      settled := true;
      RecordStep(store, rid, Checkpoint.Settle, clock, chain.state);
    } else {
      if sent.error.Refused? {
        SettleRefused(before, rid);
      }
      if !SettleTolerates(sent.error) {
        return Err(sent.error), settled, skipped;
      }
      skipped := [SettleSkipped(sent.error)];
      if sent.error == Refused(AlreadySettled) {
        SettledIsTrue(before, rid);
        RecordStep(store, rid, Checkpoint.Settle, clock, chain.state);
      }
    }
    r := Ok(());
  }

  /** Phase D of `closeRound`: settle a round read as Cleared, and read it again. */
  method SettleStage(chain: Chain, store: Checkpoint.Store?, rid: nat, clock: string)
    returns (r: Result<Round, Fault>, settled: bool, skipped: seq<CloseSkip>)
    requires Inv(chain.state)
    requires rid in chain.state.cells && chain.state.cells[rid].round.status == Cleared
    modifies chain, store
    ensures Follows(old(chain.state), chain.state)
    ensures Grows(old(FileOf(store)), FileOf(store), rid)
    ensures old(StoreTrue(store, chain.state)) ==> StoreTrue(store, chain.state)
    ensures r.Ok? ==> rid in chain.state.cells && r.value == chain.state.cells[rid].round
    ensures settled ==> Recorded(store, rid, Checkpoint.Settle)
    ensures old(StoreTrue(store, chain.state)) ==> SettleReport(chain.state, rid, settled, skipped)
    ensures chain.AlwaysUp() && old(StoreTrue(store, chain.state)) ==> r.Ok? && HasStatus(chain.state, rid, {Settled})
    ensures chain.AlwaysUp() ==> r.Ok?
    ensures chain.asked > old(chain.asked)
    ensures chain.landed == old(chain.landed) + SettleCalls(rid, settled)
    ensures SettleSkips(skipped) && (r.Ok? ==> (settled <==> skipped == []))
    ensures r.Ok? ==> r.value.status in {Cleared, Settled}
  {
    hide Inv, Run, Follows, CursorTrue, StepTrue, Checkpoint.FileIn, Checkpoint.Loadable;
    ghost var start := chain.state;
    FollowsSelf(start);
    if StoreTrue(store, start) && store != null {
      CursorNotAhead(start, store.data, rid);
    }
    settled, skipped := false, [SettleByCheckpoint];
    if !StepAlreadyDone(store, rid, Checkpoint.Settle) {
      var sent: Result<(), Fault>;
      sent, settled, skipped := SettlePhase(chain, store, rid, clock);
      if sent.Err? {
        return Err(sent.error), settled, skipped;
      }
    }
    ghost var late := chain.state;
    StatusFollows(start, late, rid);
    r := chain.GetRound(rid);
    FollowsTrans(start, late, chain.state);
    StatusFollows(late, chain.state, rid);
    if StoreTrue(store, late) {
      StoreFollows(late, chain.state, store);
    }
  }

  /** What a `closeRound` pass reports, read against the chain it leaves. */
  ghost predicate CloseReport(s: State, rid: nat, r: CloseResult) {
    && rid in s.cells && r.finalStatus == s.cells[rid].round.status && r.winner == s.cells[rid].round.winner
    && (r.cleared ==> StepTrue(s, rid, Checkpoint.Clear))
    && (r.settled ==> HasStatus(s, rid, {Settled}))
    && (r.voided ==> r.cleared && HasStatus(s, rid, {Voided}))
    && (r.cleared && !r.voided ==> HasStatus(s, rid, {Cleared, Settled}))
    && ClearByCheckpoint !in r.skipped && SettleByCheckpoint !in r.skipped
  }

  /** The reasons a pass gives for what it left undone fit the status it ended on. */
  ghost predicate SkipsSay(r: CloseResult) {
    && (VoidedBefore in r.skipped <==> r.finalStatus == Voided)
    && (SettledBefore in r.skipped ==> r.finalStatus == Settled && !r.settled)
    && (r.finalStatus == Settled && !r.settled ==>
          exists x :: x in r.skipped && (x.SettledBefore? || x.SettleSkipped? || x.SettleByCheckpoint?))
  }

  ghost predicate ClearSkips(skipped: seq<CloseSkip>) {
    forall x :: x in skipped ==> x.ClearSkipped? || x.ClearByCheckpoint?
  }

  ghost predicate SettleSkips(skipped: seq<CloseSkip>) {
    forall x :: x in skipped ==> x.SettleSkipped? || x.SettleByCheckpoint?
  }

  lemma SkipsOfRest(done: CloseResult, settled: bool, more: seq<CloseSkip>, r: CloseResult)
    requires ClearSkips(done.skipped) && r.skipped == done.skipped + more && r.settled == settled
    requires RestSays(settled, more, r.finalStatus)
    ensures SkipsSay(r) && WindowStillOpen !in r.skipped
  {
    assert forall x :: x in r.skipped <==> x in done.skipped || x in more;
    if more != [] {
      assert more[0] in r.skipped;
    }
  }

  lemma NoWinnerBeforeClear(s: State, rid: nat)
    requires Inv(s) && rid in s.cells && s.cells[rid].round.status in {Open, Revealing}
    ensures s.cells[rid].round.winner == None
  {
    assert RoundInv(s, s.cells[rid]);
  }

  /** The reasons for not settling fit the status last read. */
  ghost predicate RestSays(settled: bool, more: seq<CloseSkip>, status: Status) {
    || (more == [VoidedBefore] && status == Voided && !settled)
    || (more == [SettledBefore] && status == Settled && !settled)
    || (SettleSkips(more) && status != Voided && (status == Settled ==> settled || more != []))
  }

  /** Phase D by the status read: settle a cleared round, say why not of a finished one. */
  method SettleOrSkip(chain: Chain, store: Checkpoint.Store?, rid: nat, round: Round, clock: string)
    returns (r: Result<Round, Fault>, settled: bool, more: seq<CloseSkip>)
    requires Inv(chain.state) && rid in chain.state.cells && chain.state.cells[rid].round == round
    modifies chain, store
    ensures Follows(old(chain.state), chain.state)
    ensures Grows(old(FileOf(store)), FileOf(store), rid)
    ensures old(StoreTrue(store, chain.state)) ==> StoreTrue(store, chain.state)
    ensures r.Ok? ==>
              && rid in chain.state.cells && r.value == chain.state.cells[rid].round
              && RestSays(settled, more, r.value.status)
    ensures settled ==> Recorded(store, rid, Checkpoint.Settle)
    ensures old(StoreTrue(store, chain.state)) ==> SettleReport(chain.state, rid, settled, more)
    ensures chain.AlwaysUp() && old(StoreTrue(store, chain.state)) && round.status in {Cleared, Settled, Voided} ==>
              HasStatus(chain.state, rid, {Settled, Voided})
    ensures chain.AlwaysUp() ==> r.Ok?
    ensures chain.asked >= old(chain.asked)
    ensures chain.landed == old(chain.landed) + SettleCalls(rid, settled)
  {
    hide Inv, Run, Follows, StoreTrue, StepTrue, HasStatus, Grows, Recorded;
    NothingGrown(FileOf(store), rid);
    FollowsSelf(chain.state);
    SettledIsFinished(chain.state, rid);
    if round.status == Cleared {
      r, settled, more := SettleStage(chain, store, rid, clock);
      SettledIsFinished(chain.state, rid);
      return;
    }
    r, settled := Ok(round), false;
    more := if round.status == Settled then [SettledBefore] else if round.status == Voided then [VoidedBefore] else [];
  }

  /** The rest of `closeRound` once the round has been read past its clear phase. */
  method FinishClose(chain: Chain, store: Checkpoint.Store?, rid: nat, round: Round, done: CloseResult, clock: string)
    returns (r: Result<CloseResult, Fault>)
    requires Inv(chain.state) && rid in chain.state.cells && chain.state.cells[rid].round == round && !done.settled
    modifies chain, store
    ensures Follows(old(chain.state), chain.state)
    ensures Grows(old(FileOf(store)), FileOf(store), rid)
    ensures old(StoreTrue(store, chain.state)) ==> StoreTrue(store, chain.state)
    ensures r.Ok? ==>
              && r.value.cleared == done.cleared
              && (r.value.settled ==> Recorded(store, rid, Checkpoint.Settle))
    ensures r.Ok? && old(StoreTrue(store, chain.state)) && ClearReport(old(chain.state), rid, done) ==>
              CloseReport(chain.state, rid, r.value)
    ensures chain.AlwaysUp() && old(StoreTrue(store, chain.state)) && round.status in {Cleared, Settled, Voided} ==>
              r.Ok? && HasStatus(chain.state, rid, {Settled, Voided})
    ensures chain.AlwaysUp() ==> r.Ok?
    ensures chain.asked >= old(chain.asked)
    ensures r.Ok? ==> chain.landed == old(chain.landed) + SettleCalls(rid, r.value.settled)
    ensures r.Ok? && ClearSkips(done.skipped) ==>
              WindowStillOpen !in r.value.skipped && SkipsSay(r.value)
    ensures old(chain.landed) <= chain.landed
  {
    hide Inv, Run, Follows, StoreTrue, StepTrue, Grows, Recorded, HasStatus;
    hide RestSays, SkipsSay, ClearSkips, ClearReport, SettleReport, CloseReport;
    ghost var start := chain.state;
    var last, settled, more := SettleOrSkip(chain, store, rid, round, clock);
    if ClearReport(start, rid, done) {
      ReportFollows(start, chain.state, rid, done);
    }
    if last.Err? {
      return Err(last.error);
    }
    var result := done.(settled := settled, skipped := done.skipped + more);
    if result.winner.None? && last.value.winner.Some? {
      result := result.(winner := last.value.winner);
    }
    r := Ok(result.(finalStatus := last.value.status));
    if ClearReport(chain.state, rid, done) && SettleReport(chain.state, rid, settled, more) {
      ClosedReport(chain.state, rid, done, more, r.value);
    }
    if ClearSkips(done.skipped) {
      SkipsOfRest(done, settled, more, r.value);
    }
  }

  lemma ClosedReport(s: State, rid: nat, done: CloseResult, more: seq<CloseSkip>, r: CloseResult)
    requires rid in s.cells && ClearReport(s, rid, done) && SettleReport(s, rid, r.settled, more)
    requires r.cleared == done.cleared && r.voided == done.voided && r.skipped == done.skipped + more
    requires r.finalStatus == s.cells[rid].round.status
    requires r.winner == if done.winner.None? then s.cells[rid].round.winner else done.winner
    ensures CloseReport(s, rid, r)
  {
    hide StepTrue;
  }

  lemma EmptyReport(s: State, rid: nat)
    ensures var none := CloseResult(false, false, false, None, Revealing, []);
            ClearReport(s, rid, none) && ClearReport(s, rid, none.(skipped := [WindowStillOpen]))
  {
  }

  lemma ClearIsPast(s: State, rid: nat)
    requires StepTrue(s, rid, Checkpoint.Clear)
    ensures rid in s.cells && s.cells[rid].round.status in {Cleared, Settled, Voided}
  {
  }

  /** Terms are fixed, so a deadline read earlier is the deadline now. */
  lemma SameDeadline(s: State, t: State, rid: nat)
    requires Inv(s) && Follows(s, t)
    ensures Inv(t)
    ensures rid in s.cells ==> rid in t.cells && t.cells[rid].round.revealDeadline == s.cells[rid].round.revealDeadline
  {
    hide Inv, Follows;
    FollowsFacts(s, t);
  }

  /**
   * `closeRound`. A true cursor stays true, a true cursor never makes the pass skip a step, and what it
   * reports happened. When no request is lost, a pass past the reveal deadline finishes the round: it ends
   * Settled or Voided even if the pass throws. It throws exactly when the round it read as due was cleared and
   * settled by others before its `clear` arrived.
   */
  method CloseRound(chain: Chain, store: Checkpoint.Store?, rid: nat, nowSeconds: nat, clock: string)
    returns (r: Result<CloseResult, Fault>)
    requires Inv(chain.state)
    modifies chain, store
    ensures Follows(old(chain.state), chain.state)
    ensures Grows(old(FileOf(store)), FileOf(store), rid)
    ensures old(StoreTrue(store, chain.state)) ==> StoreTrue(store, chain.state)
    ensures r.Ok? ==>
              && (r.value.cleared ==> Recorded(store, rid, Checkpoint.Clear))
              && (r.value.settled ==> Recorded(store, rid, Checkpoint.Settle))
    ensures r.Ok? && old(StoreTrue(store, chain.state)) ==> CloseReport(chain.state, rid, r.value)
    ensures var s := old(chain.state);
            chain.AlwaysUp() && Closable(s, rid) && nowSeconds > s.cells[rid].round.revealDeadline
            && old(StoreTrue(store, chain.state)) ==>
              && HasStatus(chain.state, rid, {Settled, Voided})
              && (r.Err? ==> r.error == Refused(AlreadySettled))
    ensures chain.asked > old(chain.asked)
    ensures r.Ok? ==>
              && chain.landed == old(chain.landed) + CloseCalls(rid, r.value) && SkipsSay(r.value)
              && rid in old(chain.First()).cells
              && var round := old(chain.First()).cells[rid].round;
                 (WindowStillOpen in r.value.skipped <==>
                   && round.status == Revealing && nowSeconds <= round.revealDeadline
                   && !old(StepAlreadyDone(store, rid, Checkpoint.Clear)))
    ensures old(chain.landed) <= chain.landed
    ensures chain.AlwaysUp() && rid in old(chain.state).cells ==>
              (r.Err? <==>
                && old(CloseThrows(chain.First(), chain.Second(), rid, nowSeconds))
                && !old(StepAlreadyDone(store, rid, Checkpoint.Clear)))
    ensures chain.AlwaysUp() && rid in old(chain.state).cells && r.Err? ==>
              OthersMoved(chain.turns, old(chain.asked), chain.asked, old(chain.state), rid)
  {
    hide SkipsSay;
    hide Inv, Run, Follows, StoreTrue, StepTrue, ClearReport, CloseReport, HasStatus, OthersMoved;
    hide Grows, StepAlreadyDone, CloseCalls, Recorded;
    NothingGrown(FileOf(store), rid);
    ghost var start, from := chain.state, chain.asked;
    var read := chain.GetRound(rid);
    ghost var mid := chain.state;
    SameDeadline(start, mid, rid);
    if StoreTrue(store, start) {
      StoreFollows(start, mid, store);
    }
    if Closable(start, rid) {
      ClosableFollows(start, mid, rid);
    }
    if read.Err? {
      return Err(read.error);
    }
    EmptyReport(mid, rid);
    ReadStatus(mid, rid);
    r := CloseFrom(chain, store, rid, read.value, nowSeconds, clock);
    FollowsTrans(start, mid, chain.state);
    if r.Err? && chain.AlwaysUp() {
      SettledByOthers(chain.turns, from + 1, start, mid, rid);
      MovedSince(chain.turns, from, from + 1, from + 2, start, rid);
    }
  }

  /** `closeRound` from its first read of the round on. */
  method CloseFrom(chain: Chain, store: Checkpoint.Store?, rid: nat, round: Round, nowSeconds: nat, clock: string)
    returns (r: Result<CloseResult, Fault>)
    requires Inv(chain.state) && rid in chain.state.cells && chain.state.cells[rid].round == round
    modifies chain, store
    ensures Follows(old(chain.state), chain.state)
    ensures Grows(old(FileOf(store)), FileOf(store), rid)
    ensures old(StoreTrue(store, chain.state)) ==> StoreTrue(store, chain.state)
    ensures r.Ok? ==>
              && (r.value.cleared ==> Recorded(store, rid, Checkpoint.Clear))
              && (r.value.settled ==> Recorded(store, rid, Checkpoint.Settle))
    ensures r.Ok? && old(StoreTrue(store, chain.state)) ==> CloseReport(chain.state, rid, r.value)
    ensures chain.AlwaysUp() && Closable(old(chain.state), rid) && nowSeconds > round.revealDeadline
            && old(StoreTrue(store, chain.state)) ==>
              && HasStatus(chain.state, rid, {Settled, Voided})
              && (r.Err? ==> r.error == Refused(AlreadySettled))
    ensures chain.AlwaysUp() ==>
              (r.Err? <==>
                && round.status == Revealing && nowSeconds > round.revealDeadline
                && !old(StepAlreadyDone(store, rid, Checkpoint.Clear)) && HasStatus(old(chain.First()), rid, {Settled}))
    ensures r.Err? && chain.AlwaysUp() ==> chain.asked == old(chain.asked) + 1
    ensures chain.asked >= old(chain.asked)
    ensures r.Ok? ==>
              && chain.landed == old(chain.landed) + CloseCalls(rid, r.value) && SkipsSay(r.value)
              && (WindowStillOpen in r.value.skipped <==>
                    && round.status == Revealing && nowSeconds <= round.revealDeadline
                    && !old(StepAlreadyDone(store, rid, Checkpoint.Clear)))
    ensures old(chain.landed) <= chain.landed
  {
    hide SkipsSay;
    hide Inv, Run, Follows, StoreTrue, StepTrue, ClearReport, CloseReport, HasStatus, StepAlreadyDone, Grows;
    NoCalls(rid);
    hide ClearCalls, SettleCalls;
    EmptyReport(chain.state, rid);
    if round.status == Revealing {
      r := CloseRevealing(chain, store, rid, round, nowSeconds, clock);
    } else {
      assert round.status == Open || round.status in {Cleared, Settled, Voided};
      r := FinishClose(chain, store, rid, round, CloseResult(false, false, false, None, Revealing, []), clock);
    }
  }

  lemma NoCalls(rid: nat)
    ensures ClearCalls(rid, false) == [] && SettleCalls(rid, false) == []
  {
  }

  /** `closeRound` on a round read as Revealing. */
  method CloseRevealing(chain: Chain, store: Checkpoint.Store?, rid: nat, round: Round, nowSeconds: nat, clock: string)
    returns (r: Result<CloseResult, Fault>)
    requires Inv(chain.state) && rid in chain.state.cells && chain.state.cells[rid].round == round
    requires round.status == Revealing
    modifies chain, store
    ensures Follows(old(chain.state), chain.state)
    ensures Grows(old(FileOf(store)), FileOf(store), rid)
    ensures old(StoreTrue(store, chain.state)) ==> StoreTrue(store, chain.state)
    ensures r.Ok? ==>
              && (r.value.cleared ==> Recorded(store, rid, Checkpoint.Clear))
              && (r.value.settled ==> Recorded(store, rid, Checkpoint.Settle))
    ensures r.Ok? && old(StoreTrue(store, chain.state)) ==> CloseReport(chain.state, rid, r.value)
    ensures chain.AlwaysUp() && Closable(old(chain.state), rid) && nowSeconds > round.revealDeadline
            && old(StoreTrue(store, chain.state)) ==>
              && HasStatus(chain.state, rid, {Settled, Voided})
              && (r.Err? ==> r.error == Refused(AlreadySettled))
    ensures chain.AlwaysUp() ==>
              (r.Err? <==>
                && nowSeconds > round.revealDeadline
                && !old(StepAlreadyDone(store, rid, Checkpoint.Clear)) && HasStatus(old(chain.First()), rid, {Settled}))
    ensures r.Err? && chain.AlwaysUp() ==> chain.asked == old(chain.asked) + 1
    ensures chain.asked >= old(chain.asked)
    ensures r.Ok? ==>
              && chain.landed == old(chain.landed) + CloseCalls(rid, r.value) && SkipsSay(r.value)
              && (WindowStillOpen in r.value.skipped <==>
                    nowSeconds <= round.revealDeadline && !old(StepAlreadyDone(store, rid, Checkpoint.Clear)))
    ensures old(chain.landed) <= chain.landed
  {
    hide Inv, Run, Follows, StoreTrue, StepTrue, ClearReport, CloseReport, HasStatus, StepAlreadyDone, Grows;
    hide SkipsSay, Recorded, ClearCalls, SettleCalls, Closable;
    if !StepAlreadyDone(store, rid, Checkpoint.Clear) && nowSeconds <= round.revealDeadline {
      NoCalls(rid);
      NothingGrown(FileOf(store), rid);
      FollowsSelf(chain.state);
      StillOpenReport(chain.state, rid);
      return Ok(CloseResult(false, false, false, None, Revealing, [WindowStillOpen]));
    }
    r := ClearAndFinish(chain, store, rid, round, clock);
  }

  /** `closeRound` from its clear phase on. */
  method ClearAndFinish(chain: Chain, store: Checkpoint.Store?, rid: nat, round: Round, clock: string)
    returns (r: Result<CloseResult, Fault>)
    requires Inv(chain.state) && rid in chain.state.cells && chain.state.cells[rid].round == round
    requires round.status == Revealing
    modifies chain, store
    ensures Follows(old(chain.state), chain.state)
    ensures Grows(old(FileOf(store)), FileOf(store), rid)
    ensures old(StoreTrue(store, chain.state)) ==> StoreTrue(store, chain.state)
    ensures r.Ok? ==>
              && (r.value.cleared ==> Recorded(store, rid, Checkpoint.Clear))
              && (r.value.settled ==> Recorded(store, rid, Checkpoint.Settle))
    ensures r.Ok? && old(StoreTrue(store, chain.state)) ==> CloseReport(chain.state, rid, r.value)
    ensures chain.AlwaysUp() && Closable(old(chain.state), rid) && old(StoreTrue(store, chain.state)) ==>
              && HasStatus(chain.state, rid, {Settled, Voided})
              && (r.Err? ==> r.error == Refused(AlreadySettled))
    ensures chain.AlwaysUp() ==>
              (r.Err? <==>
                && !old(StepAlreadyDone(store, rid, Checkpoint.Clear)) && HasStatus(old(chain.First()), rid, {Settled}))
    ensures r.Err? && chain.AlwaysUp() ==> chain.asked == old(chain.asked) + 1
    ensures chain.asked >= old(chain.asked)
    ensures r.Ok? ==>
              && chain.landed == old(chain.landed) + CloseCalls(rid, r.value) && SkipsSay(r.value)
              && WindowStillOpen !in r.value.skipped
    ensures old(chain.landed) <= chain.landed
  {
    hide Inv, Run, Follows, StoreTrue, StepTrue, ClearReport, CloseReport, HasStatus, StepAlreadyDone, Grows;
    hide SkipsSay, ClearSkips, ClearCalls, SettleCalls, Checkpoint.HasStep, Checkpoint.EntryOf;
    ghost var start, was, sent := chain.state, FileOf(store), chain.landed;
    var cleared := ClearStage(chain, store, rid, clock);
    if cleared.Err? {
      SettledIsFinished(chain.state, rid);
      return Err(cleared.error);
    }
    ghost var mid, kept, between := chain.state, FileOf(store), chain.landed;
    SameDeadline(start, mid, rid);
    if StepTrue(mid, rid, Checkpoint.Clear) {
      ClearIsPast(mid, rid);
    }
    r := FinishClose(chain, store, rid, cleared.value.1, cleared.value.0, clock);
    FollowsTrans(start, mid, chain.state);
    GrowsTrans(was, kept, FileOf(store), rid);
    GrowsKeeps(kept, FileOf(store), rid, Checkpoint.Clear);
    assert sent <= between <= chain.landed;
  }

  lemma ReadStatus(s: State, rid: nat)
    requires rid in s.cells
    ensures HasStatus(s, rid, {Revealing}) <==> s.cells[rid].round.status == Revealing
  {
  }

  lemma SettledByOthers(turns: nat -> Turn, k: nat, s: State, m: State, rid: nat)
    requires Follows(s, m) && HasStatus(m, rid, {Revealing}) && HasStatus(Run(m, turns(k).others), rid, {Settled})
    ensures OthersMoved(turns, k, k + 1, s, rid)
  {
    hide Follows, Run;
    assert Moves(m, turns(k).others, rid);
  }

  lemma StillOpenReport(s: State, rid: nat)
    requires Inv(s) && rid in s.cells && s.cells[rid].round.status == Revealing
    ensures var none := CloseResult(false, false, false, None, Revealing, [WindowStillOpen]);
            CloseReport(s, rid, none) && SkipsSay(none)
  {
    NoWinnerBeforeClear(s, rid);
    hide Inv, StepTrue;
  }

  lemma SettledIsFinished(s: State, rid: nat)
    ensures HasStatus(s, rid, {Settled}) || (rid in s.cells && s.cells[rid].round.status in {Settled, Voided}) ==>
              HasStatus(s, rid, {Settled, Voided})
  {
  }
}
