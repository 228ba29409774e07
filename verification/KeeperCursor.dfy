/** What the keeper's durable cursor claims about the chain, and why others cannot make it false. */
module KeeperCursor {
  import opened Prelude
  import opened RoundTypes
  import opened RoundInvariant
  import opened Runs
  import opened Progress
  import opened Interleaving
  import Checkpoint

  // ---- What the durable cursor claims ------------------------------------------------------------

  ghost predicate IsRevealed(s: State, rid: nat, bidder: Address) {
    rid in s.cells && bidder in s.cells[rid].bids && s.cells[rid].bids[bidder].revealedValue.Some?
  }

  ghost predicate AllRevealed(s: State, rid: nat) {
    rid in s.cells && forall b :: b in s.cells[rid].round.bidders ==> IsRevealed(s, rid, b)
  }

  /**
   * A recorded step is true of the chain: its status is one that proves it, and a recorded reveal left nothing
   * sealed.
   */
  ghost predicate StepTrue(s: State, rid: nat, step: Checkpoint.KeeperStep) {
    && rid in s.cells
    && s.cells[rid].round.status in Checkpoint.SatisfiedBy(step)
    && (step == Checkpoint.Reveal ==> AllRevealed(s, rid))
  }

  ghost predicate CursorTrue(s: State, f: Checkpoint.File) {
    forall rid, step :: Checkpoint.HasStep(Checkpoint.EntryOf(f, rid), step) ==> StepTrue(s, rid, step)
  }

  lemma RevealedFollows(s: State, t: State, rid: nat, bidder: Address)
    requires Inv(s) && Follows(s, t) && IsRevealed(s, rid, bidder)
    ensures IsRevealed(t, rid, bidder)
  {
    hide Inv, Follows, Reaches;
    FollowsFacts(s, t);
  }

  lemma AllRevealedFollows(s: State, t: State, rid: nat)
    requires Inv(s) && Follows(s, t) && AllRevealed(s, rid) && s.cells[rid].round.status != Open
    ensures AllRevealed(t, rid)
  {
    hide Inv, Follows, Reaches;
    FollowsFacts(s, t);
  }

  /** Whatever others do, a true step stays true. */
  lemma StepTrueFollows(s: State, t: State, rid: nat, step: Checkpoint.KeeperStep)
    requires Inv(s) && Follows(s, t) && StepTrue(s, rid, step)
    ensures StepTrue(t, rid, step)
  {
    hide Inv, Follows, Evolves, Reaches, AllRevealed;
    FollowsFacts(s, t);
    Checkpoint.ProofsPersist(step, s.cells[rid].round.status, t.cells[rid].round.status);
    if step == Checkpoint.Reveal {
      AllRevealedFollows(s, t, rid);
    }
  }

  /** Whatever others do, a true cursor stays true. */
  lemma CursorFollows(s: State, t: State, f: Checkpoint.File)
    requires Inv(s) && Follows(s, t) && CursorTrue(s, f)
    ensures CursorTrue(t, f)
  {
    hide Inv, Follows, StepTrue;
    forall rid, step | Checkpoint.HasStep(Checkpoint.EntryOf(f, rid), step)
      ensures StepTrue(t, rid, step)
    {
      StepTrueFollows(s, t, rid, step);
    }
  }

  lemma CursorRecords(s: State, f: Checkpoint.File, rid: nat, step: Checkpoint.KeeperStep,
          hash: Option<string>, at: Option<string>)
    requires CursorTrue(s, f) && StepTrue(s, rid, step)
    ensures CursorTrue(s, Checkpoint.PlanCheckpointStep(f, rid, step, hash, at))
  {
    hide StepTrue;
    var g := Checkpoint.PlanCheckpointStep(f, rid, step, hash, at);
    forall k, x | Checkpoint.HasStep(Checkpoint.EntryOf(g, k), x)
      ensures StepTrue(s, k, x)
    {
      assert (k == rid && x == step) || Checkpoint.HasStep(Checkpoint.EntryOf(f, k), x);
    }
  }

  /** `recordStep`: no pass ever supplies a transaction hash. A write that fails leaves the file behind. */
  method RecordStep(store: Checkpoint.Store?, rid: nat, step: Checkpoint.KeeperStep, clock: string, ghost s: State)
    modifies store
    ensures store != null ==> store.data == Checkpoint.PlanCheckpointStep(old(store.data), rid, step, None, Some(clock))
    ensures store != null ==>
              && store.saves == old(store.saves) + 1
              && store.disk == old(store.AfterSave(
                   Checkpoint.PlanCheckpointStep(store.data, rid, step, None, Some(clock))))
    ensures Grows(old(FileOf(store)), FileOf(store), rid) && Recorded(store, rid, step)
    ensures store != null ==> Adds(old(FileOf(store)), FileOf(store), rid, {step})
    ensures StepTrue(s, rid, step) && old(StoreTrue(store, s)) ==> StoreTrue(store, s)
  {
    hide StepTrue, CursorTrue, Grows, Adds, Checkpoint.PlanCheckpointStep, Checkpoint.FileIn, Checkpoint.Loadable;
    if store != null {
      StepGrows(store.data, rid, step, Some(clock));
      if StepTrue(s, rid, step) && StoreTrue(store, s) {
        CursorRecords(s, store.data, rid, step, None, Some(clock));
        WrittenIsTrue(s, Checkpoint.PlanCheckpointStep(store.data, rid, step, None, Some(clock)));
      }
      store.MarkComplete(rid, step, None, clock);
      Checkpoint.WrittenIsLoadable(store.data);
    }
    NothingGrows(rid);
  }

  lemma NothingGrows(rid: nat)
    ensures var none := Checkpoint.File("", "", map[]); Grows(none, none, rid)
  {
  }

  lemma StepGrows(f: Checkpoint.File, rid: nat, step: Checkpoint.KeeperStep, at: Option<string>)
    ensures var g := Checkpoint.PlanCheckpointStep(f, rid, step, None, at);
            && Grows(f, g, rid) && Adds(f, g, rid, {step}) && Checkpoint.HasStep(Checkpoint.EntryOf(g, rid), step)
            && (forall disk :: Checkpoint.Loadable(f, disk) ==> Checkpoint.Loadable(g, disk))
  {
    Checkpoint.StepKeepsFileOk(f, rid, step, None, at);
    hide Checkpoint.FileOk, Checkpoint.StepEntry, Checkpoint.Loaded;
  }

  /** `stepAlreadyDone`. */
  predicate StepAlreadyDone(store: Checkpoint.Store?, rid: nat, step: Checkpoint.KeeperStep)
    reads store
  {
    store != null && step in Checkpoint.SKIP_STEPS && Checkpoint.HasStep(Checkpoint.EntryOf(store.data, rid), step)
  }

  /** Every write succeeds. */
  ghost predicate AlwaysWrites(writable: nat -> bool) {
    forall k :: writable(k)
  }

  /**
   * The cursor, and the file behind it, claim only what is true of the chain; the file would load again, and is up
   * to date if every write succeeds.
   */
  ghost predicate StoreTrue(store: Checkpoint.Store?, s: State)
    reads store
  {
    store != null ==>
      && CursorTrue(s, store.data) && CursorTrue(s, Checkpoint.FileIn(store.disk))
      && Checkpoint.Loadable(store.data, store.disk)
      && (AlwaysWrites(store.writable) ==> Checkpoint.UpToDate(store.data, store.disk))
  }

  lemma StoreFollows(s: State, t: State, store: Checkpoint.Store?)
    requires Inv(s) && Follows(s, t) && StoreTrue(store, s)
    ensures StoreTrue(store, t)
  {
    hide Inv, Follows, CursorTrue, Checkpoint.FileIn, Checkpoint.Loadable, Checkpoint.UpToDate;
    if store != null {
      CursorFollows(s, t, store.data);
      CursorFollows(s, t, Checkpoint.FileIn(store.disk));
    }
  }

  lemma WrittenIsTrue(s: State, f: Checkpoint.File)
    requires CursorTrue(s, f)
    ensures CursorTrue(s, Checkpoint.FileIn(Checkpoint.Written(f)))
  {
    hide StepTrue, Checkpoint.FileIn, Checkpoint.Written;
    Checkpoint.WrittenSteps(f);
  }

  function FileOf(store: Checkpoint.Store?): Checkpoint.File
    reads store
  {
    if store == null then Checkpoint.File("", "", map[]) else store.data
  }

  ghost predicate Recorded(store: Checkpoint.Store?, rid: nat, step: Checkpoint.KeeperStep)
    reads store
  {
    store != null ==> Checkpoint.HasStep(Checkpoint.EntryOf(store.data, rid), step)
  }

  /** From `f` to `g` only steps of round `rid` were recorded, and none was forgotten. */
  ghost predicate Grows(f: Checkpoint.File, g: Checkpoint.File, rid: nat) {
    && f.network == g.network && f.contractId == g.contractId
    && (forall k :: k != rid ==> Checkpoint.EntryOf(f, k) == Checkpoint.EntryOf(g, k))
    && (forall step :: Checkpoint.HasStep(Checkpoint.EntryOf(f, rid), step) ==>
          Checkpoint.HasStep(Checkpoint.EntryOf(g, rid), step))
    && (Checkpoint.FileOk(f) ==> Checkpoint.FileOk(g))
  }

  /** From `f` to `g` exactly these steps of round `rid` were recorded, and nothing else changed. */
  ghost predicate Adds(f: Checkpoint.File, g: Checkpoint.File, rid: nat, steps: set<Checkpoint.KeeperStep>) {
    && f.network == g.network && f.contractId == g.contractId
    && (forall k :: k != rid ==> Checkpoint.EntryOf(f, k) == Checkpoint.EntryOf(g, k))
    && (forall step :: Checkpoint.HasStep(Checkpoint.EntryOf(g, rid), step) <==>
          Checkpoint.HasStep(Checkpoint.EntryOf(f, rid), step) || step in steps)
  }

  lemma NothingAdded(f: Checkpoint.File, rid: nat)
    ensures Adds(f, f, rid, {})
  {
  }

  lemma GrowsTrans(f: Checkpoint.File, g: Checkpoint.File, h: Checkpoint.File, rid: nat)
    requires Grows(f, g, rid) && Grows(g, h, rid)
    ensures Grows(f, h, rid)
  {
    hide Checkpoint.FileOk;
  }

  lemma GrowsKeeps(f: Checkpoint.File, g: Checkpoint.File, rid: nat, step: Checkpoint.KeeperStep)
    requires Grows(f, g, rid)
    ensures Checkpoint.HasStep(Checkpoint.EntryOf(f, rid), step) ==>
              Checkpoint.HasStep(Checkpoint.EntryOf(g, rid), step)
  {
  }

  lemma NothingGrown(f: Checkpoint.File, rid: nat)
    ensures Grows(f, f, rid)
  {
  }

  predicate Matches(f: Fault, names: set<Error>) {
    f.Refused? && f.error in names
  }

  /** A cursor entry reconciled with the chain needs no further reconciling, whatever happens next. */
  lemma RepairLasts(s: State, t: State, rid: nat, e: Checkpoint.Entry)
    requires Inv(s) && Follows(s, t) && rid in s.cells
    ensures rid in t.cells
    ensures Checkpoint.Unproved(Checkpoint.Pruned(e, Checkpoint.Unproved(e, s.cells[rid].round.status)),
              t.cells[rid].round.status) == {}
  {
    hide Inv, Follows, Evolves, Reaches, Checkpoint.Pruned, Checkpoint.Unproved;
    FollowsFacts(s, t);
    Checkpoint.ReconcileIsStable(e, s.cells[rid].round.status, t.cells[rid].round.status);
  }
}
