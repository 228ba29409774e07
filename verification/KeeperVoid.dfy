/** `voidIfStale` as the watch loop runs it, with no settlement guard. */
module KeeperVoid {
  import opened Prelude
  import opened RoundTypes
  import Spec = RoundSpec
  import opened RoundInvariant
  import opened Runs
  import opened Progress
  import opened Interleaving
  import opened KeeperCursor
  import opened KeeperClose
  import Checkpoint
  import Lifecycle

  datatype VoidSkip = StatusIs(status: Status) | NotYet | VoidSkipped(error: Fault)

  datatype VoidResult = VoidResult(voided: bool, skipped: seq<VoidSkip>, finalStatus: Status)

  /** `evaluateVoid` on a view without bidders: Open, and past the grace period by the keeper's clock. */
  predicate VoidGate(round: Round, nowSeconds: nat) {
    round.status == Open && nowSeconds > round.revealDeadline + VOID_GRACE
  }

  /** The chain's clock is past the grace period of the round. */
  ghost predicate Stale(s: State, rid: nat) {
    rid in s.cells && s.now > s.cells[rid].round.revealDeadline + VOID_GRACE
  }

  lemma StaleFollows(s: State, t: State, rid: nat)
    requires Inv(s) && Follows(s, t)
    ensures Inv(t) && (Stale(s, rid) ==> Stale(t, rid)) && (PastOpen(s, rid) ==> PastOpen(t, rid))
    ensures rid in s.cells ==> rid in t.cells && t.cells[rid].round.revealDeadline == s.cells[rid].round.revealDeadline
  {
    hide Inv, Follows;
    FollowsFacts(s, t);
  }

  lemma VoidAccepted(s: State, rid: nat)
    requires Spec.Void(s, rid).Ok?
    ensures var t := Spec.Void(s, rid).value; StepTrue(t, rid, Checkpoint.Void) && HasStatus(t, rid, {Voided})
  {
    hide Spec.EnsureLedger, Spec.ProveConserved, Spec.RefundEach, Spec.Drained;
  }

  /** Why `void` is refused. Of a stale round, only because it is no longer Open. */
  lemma VoidRefused(s: State, rid: nat)
    requires Inv(s) && rid in s.cells && Spec.Void(s, rid).Err?
    ensures var e := Spec.Void(s, rid).error;
            && e in {RoundVoided, AlreadySettled, NotVoidable, Trap}
            && (e == RoundVoided ==> HasStatus(s, rid, {Voided}))
            && (e == AlreadySettled ==> HasStatus(s, rid, {Settled}))
            && (e == Trap ==> s.cells[rid].round.revealDeadline + VOID_GRACE >= TWO_64)
            && (Stale(s, rid) ==> PastOpen(s, rid))
  {
    hide Inv, Spec.RefundAll, Lifecycle.Drained;
    if s.cells[rid].round.status == Open && Stale(s, rid) {
      Lifecycle.VoidDrains(s, rid);
    }
  }

  lemma AttemptVoid(s: State, rid: nat)
    ensures Attempt(s, Call.Void(rid)) == Spec.Void(s, rid)
  {
  }

  /** The refusals of `void` that leave the pass nothing to do; a round others finished is not among them. */
  predicate VoidTolerates(f: Fault) {
    f.Refused? && (f.error == NotVoidable || f.error == WrongStatus || f.error == AlreadyCleared)
  }

  /** A state of the chain on which `void` is refused for a reason the pass does not tolerate. */
  ghost predicate VoidFails(s: State, rid: nat) {
    && rid in s.cells
    && (s.cells[rid].round.status in {Voided, Settled}
        || (s.cells[rid].round.status == Open && s.cells[rid].round.revealDeadline + VOID_GRACE >= TWO_64))
  }

  lemma VoidFailsIff(s: State, rid: nat)
    requires Inv(s) && rid in s.cells
    ensures (Spec.Void(s, rid).Err? && !VoidTolerates(Refused(Spec.Void(s, rid).error))) <==> VoidFails(s, rid)
  {
    if s.cells[rid].round.status == Open && Stale(s, rid) && s.cells[rid].round.revealDeadline + VOID_GRACE < TWO_64 {
      Lifecycle.VoidDrains(s, rid);
    }
    hide Inv, Spec.RefundAll;
  }

  /** The pass reads the round in `m`, decides to void it, and its `void` meets `b`. */
  ghost predicate VoidThrows(m: State, b: State, rid: nat, nowSeconds: nat) {
    && rid in m.cells && m.cells[rid].round.status == Open && nowSeconds > m.cells[rid].round.revealDeadline + 3600
    && VoidFails(b, rid)
  }

  /** A round read as Open on which `void` then fails was moved by others, if its grace period fits a u64. */
  lemma ThrowIsMove(turns: nat -> Turn, k: nat, s: State, m: State, rid: nat)
    requires Inv(m) && Follows(s, m) && rid in m.cells && m.cells[rid].round.status == Open
    requires VoidFails(Run(m, turns(k).others), rid)
    ensures OthersMoved(turns, k, k + 1, s, rid) || m.cells[rid].round.revealDeadline + VOID_GRACE >= TWO_64
  {
    FollowsRun(m, turns(k).others);
    StaleFollows(m, Run(m, turns(k).others), rid);
    hide Inv, Run, Follows;
    if m.cells[rid].round.revealDeadline + VOID_GRACE < TWO_64 {
      assert Moves(m, turns(k).others, rid);
    }
  }

  function VoidCalls(rid: nat, voided: bool): seq<Call> {
    if voided then [Call.Void(rid)] else []
  }

  /** What a call to `void` that went through or was refused says of the chain it met. */
  ghost predicate VoidAnswer(s: State, t: State, rid: nat, r: Result<bool, Fault>) {
    && (r == Ok(true) ==> StepTrue(t, rid, Checkpoint.Void) && HasStatus(t, rid, {Voided}))
    && (Stale(s, rid) && (r.Ok? || r.error.Refused?) ==> PastOpen(t, rid))
    && (r.Err? && r.error.Refused? ==>
          || (r.error.error in {RoundVoided, AlreadySettled} && HasStatus(t, rid, {Voided, Settled}))
          || (rid in s.cells && s.cells[rid].round.revealDeadline + VOID_GRACE >= TWO_64))
  }

  /** Submit `void`; `Ok(false)` is a refusal that leaves nothing to do. */
  method SubmitVoid(chain: Chain, store: Checkpoint.Store?, rid: nat, clock: string)
    returns (r: Result<bool, Fault>, skipped: seq<VoidSkip>)
    requires Inv(chain.state) && rid in chain.state.cells
    modifies chain, store
    ensures Follows(old(chain.state), chain.state)
    ensures Grows(old(FileOf(store)), FileOf(store), rid)
    ensures old(StoreTrue(store, chain.state)) ==> StoreTrue(store, chain.state)
    ensures r == Ok(true) ==> Recorded(store, rid, Checkpoint.Void)
    ensures VoidAnswer(old(chain.state), chain.state, rid, r)
    ensures r.Err? && chain.AlwaysUp() ==> r.error.Refused?
    ensures chain.AlwaysUp() ==> (r.Err? <==> VoidFails(old(chain.First()), rid))
    ensures chain.asked == old(chain.asked) + 1
    ensures chain.landed == old(chain.landed) + if r == Ok(true) then [Call.Void(rid)] else []
    ensures forall x :: x in skipped ==> x.VoidSkipped?
    ensures r.Ok? ==> (r.value <==> skipped == [])
    ensures chain.AlwaysUp() ==>
              match Spec.Void(old(chain.First()), rid)
              case Ok(_) => r == Ok(true)
              case Err(e) =>
                if e in {NotVoidable, WrongStatus, AlreadyCleared}
                then r == Ok(false) && skipped == [VoidSkipped(Refused(e))]
                else r == Err(Refused(e))
    ensures store != null ==>
              Adds(old(FileOf(store)), FileOf(store), rid, if r == Ok(true) then {Checkpoint.Void} else {})
  {
    hide Adds;
    NothingAdded(FileOf(store), rid);
    hide Inv, Follows, Spec.Void, Attempt, StoreTrue, StepTrue, HasStatus, Stale, PastOpen, VoidFails;
    skipped := [];
    ghost var start := chain.state;
    ghost var before: State;
    var sent: Result<(), Fault>;
    sent, before := chain.Submit(Call.Void(rid));
    AttemptVoid(before, rid);
    StaleFollows(start, before, rid);
    VoidFailsIff(before, rid);
    if StoreTrue(store, start) {
      StoreFollows(start, chain.state, store);
    }
    if sent.Ok? {
      VoidAccepted(before, rid);
      VoidedIsPast(chain.state, rid);
      RecordStep(store, rid, Checkpoint.Void, clock, chain.state);
      return Ok(true), skipped;
    }
    if sent.error.Refused? {
      VoidRefused(before, rid);
      OneIsEither(before, rid);
    }
    if !VoidTolerates(sent.error) {
      return Err(sent.error), skipped;
    }
    skipped := [VoidSkipped(sent.error)];
    r := Ok(false);
  }

  lemma VoidedIsPast(s: State, rid: nat)
    requires HasStatus(s, rid, {Voided})
    ensures PastOpen(s, rid)
  {
  }

  lemma OneIsEither(s: State, rid: nat)
    ensures HasStatus(s, rid, {Voided}) || HasStatus(s, rid, {Settled}) ==> HasStatus(s, rid, {Voided, Settled})
  {
  }

  /**
   * `voidIfStale`. A true cursor stays true and what it reports happened. When no request is lost, a round past
   * its grace period by both clocks is past Open afterwards, even if the pass throws. It throws exactly when the
   * round it read as due was voided or settled by others before its `void` arrived, or its grace period does
   * not fit a u64.
   */
  method VoidIfStale(chain: Chain, store: Checkpoint.Store?, rid: nat, nowSeconds: nat, clock: string)
    returns (r: Result<VoidResult, Fault>)
    requires Inv(chain.state)
    modifies chain, store
    ensures Follows(old(chain.state), chain.state)
    ensures Grows(old(FileOf(store)), FileOf(store), rid)
    ensures old(StoreTrue(store, chain.state)) ==> StoreTrue(store, chain.state)
    ensures r.Ok? ==>
              && rid in chain.state.cells && r.value.finalStatus == chain.state.cells[rid].round.status
              && (r.value.voided ==> HasStatus(chain.state, rid, {Voided}) && Recorded(store, rid, Checkpoint.Void))
    ensures chain.asked > old(chain.asked)
    ensures r.Ok? ==>
              && chain.landed == old(chain.landed) + VoidCalls(rid, r.value.voided)
              && rid in old(chain.First()).cells
              && var round := old(chain.First()).cells[rid].round;
                 && (StatusIs(round.status) in r.value.skipped <==> round.status != Open)
                 && (NotYet in r.value.skipped <==> round.status == Open && nowSeconds <= round.revealDeadline + 3600)
                 && (r.value.skipped == [] <==> r.value.voided)
    ensures old(chain.landed) <= chain.landed
    ensures chain.AlwaysUp() && rid in old(chain.state).cells ==>
              (r.Err? <==> VoidThrows(old(chain.First()), old(chain.Second()), rid, nowSeconds))
    ensures chain.AlwaysUp() && rid in old(chain.state).cells && r.Err? ==>
              || OthersMoved(chain.turns, old(chain.asked), chain.asked, old(chain.state), rid)
              || old(chain.state).cells[rid].round.revealDeadline + VOID_GRACE >= TWO_64
    ensures var s := old(chain.state); chain.AlwaysUp() && rid in s.cells ==>
              && (Stale(s, rid) && nowSeconds > s.cells[rid].round.revealDeadline + VOID_GRACE ==>
                    PastOpen(chain.state, rid))
              && (r.Err? ==>
                    || (r.error in {Refused(RoundVoided), Refused(AlreadySettled)}
                    && HasStatus(chain.state, rid, {Voided, Settled}))
                    || s.cells[rid].round.revealDeadline + VOID_GRACE >= TWO_64)
  {
    hide Inv, Follows, StoreTrue, StepTrue, HasStatus, Stale, PastOpen, Grows, VoidFails, Run, OthersMoved, VoidCalls;
    ghost var start, from := chain.state, chain.asked;
    NothingGrown(FileOf(store), rid);
    var read := chain.GetRound(rid);
    ghost var mid := chain.state;
    StaleFollows(start, mid, rid);
    if StoreTrue(store, start) {
      StoreFollows(start, mid, store);
    }
    if read.Err? {
      return Err(read.error);
    }
    r := VoidFrom(chain, store, rid, read.value, nowSeconds, clock);
    FollowsTrans(start, mid, chain.state);
    if r.Err? && chain.AlwaysUp() {
      ThrowIsMove(chain.turns, from + 1, start, mid, rid);
      MovedBetween(chain.turns, from, from + 1, from + 2, chain.asked, start, rid);
    }
  }

  lemma MovedBetween(turns: nat -> Turn, from: nat, mid: nat, until: nat, to: nat, s: State, rid: nat)
    requires from <= mid && until <= to
    ensures OthersMoved(turns, mid, until, s, rid) ==> OthersMoved(turns, from, to, s, rid)
  {
    hide Follows, Moves;
  }

  /** `voidIfStale` from its read of the round on. */
  method VoidFrom(chain: Chain, store: Checkpoint.Store?, rid: nat, round: Round, nowSeconds: nat, clock: string)
    returns (r: Result<VoidResult, Fault>)
    requires Inv(chain.state) && rid in chain.state.cells && chain.state.cells[rid].round == round
    modifies chain, store
    ensures Follows(old(chain.state), chain.state)
    ensures Grows(old(FileOf(store)), FileOf(store), rid)
    ensures old(StoreTrue(store, chain.state)) ==> StoreTrue(store, chain.state)
    ensures r.Ok? ==>
              && rid in chain.state.cells && r.value.finalStatus == chain.state.cells[rid].round.status
              && (r.value.voided ==> HasStatus(chain.state, rid, {Voided}) && Recorded(store, rid, Checkpoint.Void))
              && chain.landed == old(chain.landed) + VoidCalls(rid, r.value.voided)
              && (StatusIs(round.status) in r.value.skipped <==> round.status != Open)
              && (NotYet in r.value.skipped <==> round.status == Open && nowSeconds <= round.revealDeadline + 3600)
              && (r.value.skipped == [] <==> r.value.voided)
    ensures old(chain.landed) <= chain.landed
    ensures chain.AlwaysUp() ==> (r.Err? <==> VoidGate(round, nowSeconds) && VoidFails(old(chain.First()), rid))
    ensures r.Err? ==> chain.asked > old(chain.asked)
    ensures chain.asked >= old(chain.asked)
    ensures chain.AlwaysUp() && Stale(old(chain.state), rid) && nowSeconds > round.revealDeadline + VOID_GRACE ==>
              PastOpen(chain.state, rid)
    ensures chain.AlwaysUp() && r.Err? ==>
              || (r.error in {Refused(RoundVoided), Refused(AlreadySettled)}
                  && HasStatus(chain.state, rid, {Voided, Settled}))
              || round.revealDeadline + VOID_GRACE >= TWO_64
  {
    hide Inv, Follows, StoreTrue, StepTrue, HasStatus, Stale, PastOpen, Grows, VoidFails, Run;
    ghost var start, sent0 := chain.state, chain.landed;
    FollowsSelf(start);
    NothingGrown(FileOf(store), rid);
    IsPastOpen(start, rid);
    if round.status != Open {
      return Ok(VoidResult(false, [StatusIs(round.status)], round.status));
    }
    if !VoidGate(round, nowSeconds) {
      return Ok(VoidResult(false, [NotYet], round.status));
    }
    var sent, skipped := SubmitVoid(chain, store, rid, clock);
    if sent.Err? {
      return Err(sent.error);
    }
    ghost var late := chain.state;
    var after := chain.GetRound(rid);
    FollowsTrans(start, late, chain.state);
    StaleFollows(start, late, rid);
    StaleFollows(late, chain.state, rid);
    StatusFollows(late, chain.state, rid);
    if StoreTrue(store, late) {
      StoreFollows(late, chain.state, store);
    }
    if after.Err? {
      return Err(after.error);
    }
    r := Ok(VoidResult(sent.value, skipped, after.value.status));
  }

  lemma IsPastOpen(s: State, rid: nat)
    ensures rid in s.cells && s.cells[rid].round.status != Open ==> PastOpen(s, rid)
  {
  }
}
