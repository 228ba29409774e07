/** The keeper's whole life on one checkpoint file: startup repair, passes, and restarts from what reached the disk. */
module KeeperLife {
  import opened Prelude
  import opened RoundTypes
  import opened RoundInvariant
  import opened Runs
  import opened Progress
  import opened Interleaving
  import opened KeeperCursor
  import opened KeeperReveal
  import opened KeeperClose
  import opened KeeperWatch
  import Checkpoint

  // ---- Startup repair ------------------------------------------------------------------------------

  /** Nothing is recorded that was not, and the binding is the same. */
  ghost predicate Shrinks(f: Checkpoint.File, g: Checkpoint.File) {
    && f.network == g.network && f.contractId == g.contractId
    && forall id, step :: Checkpoint.HasStep(Checkpoint.EntryOf(g, id), step) ==>
          Checkpoint.HasStep(Checkpoint.EntryOf(f, id), step)
  }

  lemma ShrinksTrans(f: Checkpoint.File, g: Checkpoint.File, h: Checkpoint.File)
    requires Shrinks(f, g) && Shrinks(g, h)
    ensures Shrinks(f, h)
  {
  }

  /** Dropping steps, in memory and perhaps on disk, cannot make a cursor false. */
  lemma ShrunkIsTrue(s: State, f: Checkpoint.File, disk: Checkpoint.Content, g: Checkpoint.File,
            after: Checkpoint.Content)
    requires CursorTrue(s, f) && CursorTrue(s, Checkpoint.FileIn(disk)) && Checkpoint.Loadable(f, disk)
    requires Shrinks(f, g) && (after == disk || after == Checkpoint.Written(g))
    ensures CursorTrue(s, g) && CursorTrue(s, Checkpoint.FileIn(after)) && Checkpoint.Loadable(g, after)
  {
    hide StepTrue, Checkpoint.FileIn, Checkpoint.Loaded, Checkpoint.Written;
    if after != disk {
      WrittenIsTrue(s, g);
      Checkpoint.WrittenIsLoadable(g);
    }
  }

  /** Only a refuted hash costs a step, and every refuted hash does. */
  ghost predicate Verified(f: Checkpoint.File, g: Checkpoint.File, verify: Option<Checkpoint.Verifier>) {
    && Shrinks(f, g) && g.rounds.Keys == f.rounds.Keys
    && forall id :: id in f.rounds ==>
         g.rounds[id] == if verify.None? then f.rounds[id]
                         else Checkpoint.Pruned(f.rounds[id], Checkpoint.Refuted(id, f.rounds[id], verify.value))
  }

  lemma VerifiedShrinks(f: Checkpoint.File, g: Checkpoint.File, verify: Checkpoint.Verifier)
    requires g.(rounds := f.rounds) == f && g.rounds.Keys == f.rounds.Keys
    requires forall id :: id in f.rounds ==>
               g.rounds[id] == Checkpoint.Pruned(f.rounds[id], Checkpoint.Refuted(id, f.rounds[id], verify))
    ensures Shrinks(f, g)
  {
    hide Checkpoint.Pruned, Checkpoint.Refuted;
    forall id, step | Checkpoint.HasStep(Checkpoint.EntryOf(g, id), step)
      ensures Checkpoint.HasStep(Checkpoint.EntryOf(f, id), step)
    {
      Checkpoint.VerifyIsExact(id, f.rounds[id], verify);
    }
  }

  /** A recorded step has a hash, or the status of its round proves it. */
  ghost predicate Proved(s: State, id: nat, e: Checkpoint.Entry) {
    id in s.cells ==>
      forall step :: step in e.completedSteps ==>
        Checkpoint.Hashed(e, step) || s.cells[id].round.status in Checkpoint.SatisfiedBy(step)
  }

  lemma ProvedFollows(s: State, t: State, id: nat, e: Checkpoint.Entry)
    requires Inv(s) && Follows(s, t) && id in s.cells && Proved(s, id, e)
    ensures Proved(t, id, e)
  {
    hide Inv, Follows, Evolves, Reaches, Checkpoint.Hashed;
    FollowsFacts(s, t);
    forall step | step in e.completedSteps && !Checkpoint.Hashed(e, step)
      ensures t.cells[id].round.status in Checkpoint.SatisfiedBy(step)
    {
      Checkpoint.ProofsPersist(step, s.cells[id].round.status, t.cells[id].round.status);
    }
  }

  /** A step is lost only if it has no hash and the status at the start did not prove it. */
  ghost predicate Keeps(s: State, id: nat, f: Checkpoint.Entry, g: Checkpoint.Entry) {
    forall step :: step in f.completedSteps && step !in g.completedSteps ==>
      !Checkpoint.Hashed(f, step) && (id in s.cells ==> s.cells[id].round.status !in Checkpoint.SatisfiedBy(step))
  }

  /** Reconciling one entry at a status read between `s` and `t`. */
  lemma Reconciled(s: State, t: State, id: nat, e: Checkpoint.Entry)
    requires Inv(s) && (s == t || Follows(s, t)) && id in t.cells
    ensures var g := Checkpoint.Pruned(e, Checkpoint.Unproved(e, t.cells[id].round.status));
            && Proved(t, id, g) && Keeps(s, id, e, g)
            && forall step :: step in g.completedSteps ==> step in e.completedSteps
  {
    hide Inv, Follows, Evolves, Reaches, Checkpoint.Hashed, Checkpoint.Pruned, Checkpoint.Unproved;
    FollowsSelf(s);
    FollowsFacts(s, t);
    Checkpoint.ReconcileIsExact(e, t.cells[id].round.status);
    forall step | id in s.cells && s.cells[id].round.status in Checkpoint.SatisfiedBy(step)
      ensures t.cells[id].round.status in Checkpoint.SatisfiedBy(step)
    {
      Checkpoint.ProofsPersist(step, s.cells[id].round.status, t.cells[id].round.status);
    }
  }

  /** Which entries of the cursor the second phase has come to, and what it made of them. */
  ghost predicate Swept(s: State, t: State, f: Checkpoint.File, g: Checkpoint.File, ids: seq<nat>, i: nat, up: bool)
    requires i <= |ids|
  {
    && Shrinks(f, g) && g.rounds.Keys == f.rounds.Keys
    && (forall k :: i <= k < |ids| && ids[k] in f.rounds ==> g.rounds[ids[k]] == f.rounds[ids[k]])
    && (forall id :: id in f.rounds ==> Keeps(s, id, f.rounds[id], g.rounds[id]))
    && (up ==> forall id :: id in ids[..i] && id in g.rounds && id in s.cells ==> Proved(t, id, g.rounds[id]))
  }

  lemma SweptFollows(s: State, t: State, u: State, f: Checkpoint.File, g: Checkpoint.File, ids: seq<nat>, i: nat,
            up: bool)
    requires i <= |ids| && Inv(s) && Follows(s, t) && Inv(t) && Follows(t, u) && Swept(s, t, f, g, ids, i, up)
    ensures Swept(s, u, f, g, ids, i, up)
  {
    hide Inv, Follows, Proved, Shrinks, Keeps, Evolves, Reaches;
    FollowsFacts(s, t);
    if up {
      forall id | id in ids[..i] && id in g.rounds && id in s.cells
        ensures Proved(u, id, g.rounds[id])
      {
        ProvedFollows(t, u, id, g.rounds[id]);
      }
    }
  }

  /** One entry more, whatever was made of it. */
  lemma SweptOn(s: State, t: State, f: Checkpoint.File, g: Checkpoint.File, h: Checkpoint.File, ids: seq<nat>, i: nat,
            up: bool)
    requires i < |ids| && NoDup(ids) && Swept(s, t, f, g, ids, i, up) && ids[i] in f.rounds
    requires Shrinks(g, h) && h.rounds.Keys == g.rounds.Keys
    requires forall id :: id in g.rounds && id != ids[i] ==> h.rounds[id] == g.rounds[id]
    requires Keeps(s, ids[i], g.rounds[ids[i]], h.rounds[ids[i]])
    requires up && ids[i] in s.cells ==> Proved(t, ids[i], h.rounds[ids[i]])
    ensures Swept(s, t, f, h, ids, i + 1, up)
  {
    hide Shrinks, Proved, Keeps;
    ShrinksTrans(f, g, h);
    assert ids[..i + 1] == ids[..i] + [ids[i]];
    assert ids[i] !in ids[..i] && forall k :: i + 1 <= k < |ids| ==> ids[k] != ids[i];
    assert g.rounds[ids[i]] == f.rounds[ids[i]];
  }

  lemma NothingLost(s: State, id: nat, e: Checkpoint.Entry)
    ensures Keeps(s, id, e, e)
  {
  }

  /**
   * `resumeCheckpoint`. Whatever the cursor claimed, nothing is added to it; a step is dropped only if its hash
   * is refuted or, having none, the chain did not prove it when the repair began; and when no request is lost,
   * every step left of a round that exists has a hash or is proved by the chain. A true cursor stays true.
   */
  method ResumeCheckpoint(chain: Chain, store: Checkpoint.Store, verify: Option<Checkpoint.Verifier>)
    returns (verified: seq<Checkpoint.Verification>, ghost mid: Checkpoint.File)
    requires Inv(chain.state)
    modifies chain, store
    ensures Follows(old(chain.state), chain.state) && Inv(chain.state)
    ensures Shrinks(old(store.data), store.data)
    ensures old(StoreTrue(store, chain.state)) ==> StoreTrue(store, chain.state)
    ensures Verified(old(store.data), mid, verify) && store.data.rounds.Keys == mid.rounds.Keys
    ensures verify == None ==> verified == []
    ensures verify.Some? ==>
              && (forall r :: r in verified ==> Checkpoint.Truthful(r, verify.value))
              && (forall id :: id in old(store.data).rounds ==>
                    Checkpoint.Reported(verified, id, old(store.data).rounds[id], {}, verify.value))
    ensures forall id :: id in mid.rounds ==> Keeps(old(chain.state), id, mid.rounds[id], store.data.rounds[id])
    ensures chain.AlwaysUp() ==>
              forall id :: id in store.data.rounds && id in old(chain.state).cells ==>
                Proved(chain.state, id, store.data.rounds[id])
  {
    hide Inv, Follows, Proved, Keeps, Shrinks, CursorTrue, Checkpoint.Pruned, Checkpoint.Refuted, Checkpoint.Unproved;
    hide Checkpoint.FileIn, Checkpoint.Loadable, Checkpoint.Written;
    ghost var start, first := chain.state, store.data;
    ghost var trueAtStart := StoreTrue(store, start);
    ghost var disk := store.disk;
    verified := store.VerifyHashes(verify);
    mid := store.data;
    NothingShrinks(first);
    if verify.Some? {
      VerifiedShrinks(first, mid, verify.value);
    }
    if trueAtStart {
      ShrunkIsTrue(start, first, disk, store.data, store.disk);
    }
    FollowsSelf(start);
    var ids := store.ListRoundIds();
    NothingSwept(start, mid, ids, chain.AlwaysUp());
    for i := 0 to |ids|
      invariant Inv(chain.state) && Follows(start, chain.state)
      invariant Swept(start, chain.state, mid, store.data, ids, i, chain.AlwaysUp())
      invariant trueAtStart ==> StoreTrue(store, chain.state)
    {
      assert ids[i] in ToSet(ids);
      ReconcileNext(chain, store, ids, i, start, mid);
    }
    ShrinksTrans(first, mid, store.data);
    assert ids[..|ids|] == ids;
    assert forall id :: id in ids <==> id in ToSet(ids);
  }

  /** One turn of the loop over the recorded rounds: read its status, reconcile its entry. */
  method ReconcileNext(chain: Chain, store: Checkpoint.Store, ids: seq<nat>, i: nat, ghost start: State,
            ghost mid: Checkpoint.File)
    requires i < |ids| && NoDup(ids) && ids[i] in mid.rounds
    requires Inv(start) && Inv(chain.state) && Follows(start, chain.state)
    requires Swept(start, chain.state, mid, store.data, ids, i, chain.AlwaysUp())
    modifies chain, store
    ensures Inv(chain.state) && Follows(start, chain.state)
    ensures Swept(start, chain.state, mid, store.data, ids, i + 1, chain.AlwaysUp())
    ensures old(StoreTrue(store, chain.state)) ==> StoreTrue(store, chain.state)
  {
    hide Inv, Follows, Proved, Keeps, Shrinks, CursorTrue, Checkpoint.Pruned, Checkpoint.Unproved;
    hide Checkpoint.FileIn, Checkpoint.Loadable, Checkpoint.Written;
    ghost var before, was, disk := chain.state, store.data, store.disk;
    var read := chain.GetRound(ids[i]);
    FollowsTrans(start, before, chain.state);
    FollowsFacts(start, chain.state);
    SweptFollows(start, before, chain.state, mid, was, ids, i, chain.AlwaysUp());
    if StoreTrue(store, before) {
      StoreFollows(before, chain.state, store);
    }
    if read.Err? {
      StayedFound(start, before, ids[i]);
      NothingShrinks(was);
      NothingLost(start, ids[i], was.rounds[ids[i]]);
      SweptOn(start, chain.state, mid, was, was, ids, i, chain.AlwaysUp());
      return;
    }
    var _ := store.Reconcile(ids[i], read.value.status);
    Reconciled(start, chain.state, ids[i], was.rounds[ids[i]]);
    ReconciledShrinks(start, chain.state, was, store.data, ids[i]);
    SweptOn(start, chain.state, mid, was, store.data, ids, i, chain.AlwaysUp());
    ghost var wasTrue := CursorTrue(chain.state, was) && CursorTrue(chain.state, Checkpoint.FileIn(disk));
    if wasTrue && Checkpoint.Loadable(was, disk) {
      ShrunkIsTrue(chain.state, was, disk, store.data, store.disk);
    }
  }

  lemma NothingShrinks(f: Checkpoint.File)
    ensures Shrinks(f, f)
  {
  }

  lemma NothingSwept(s: State, f: Checkpoint.File, ids: seq<nat>, up: bool)
    ensures Swept(s, s, f, f, ids, 0, up)
  {
  }

  lemma ReconciledShrinks(s: State, t: State, f: Checkpoint.File, g: Checkpoint.File, id: nat)
    requires Inv(s) && Follows(s, t) && id in t.cells && id in f.rounds
    requires g == f.(rounds := f.rounds[id := Checkpoint.Pruned(f.rounds[id],
              Checkpoint.Unproved(f.rounds[id], t.cells[id].round.status))])
    ensures Shrinks(f, g)
  {
    Reconciled(s, t, id, f.rounds[id]);
    hide Inv, Follows, Checkpoint.Pruned, Checkpoint.Unproved, Proved, Keeps;
  }

  // ---- Passes and restarts ---------------------------------------------------------------------------

  /** One thing the operator of a keeper has it do; `Restart` is a new process over what reached the disk. */
  datatype Pass =
    | Watch(rid: nat, sight: Sight)
    | Keep(rid: nat, beacon: Beacon, seals: Address -> SealRead)
    | Close(rid: nat, nowSeconds: nat)
    | Resume(verify: Option<Checkpoint.Verifier>)
    | Restart

  /** The store is bound to this deployment. */
  ghost predicate Bound(store: Checkpoint.Store, network: string, contractId: string)
    reads store
  {
    store.data.network == network && store.data.contractId == contractId
  }

  /** What is loaded from a true file is true, and the file loads again. */
  lemma LoadedIsTrue(s: State, content: Checkpoint.Content, network: string, contractId: string)
    requires Checkpoint.Loaded(content, network, contractId).Ok? && CursorTrue(s, Checkpoint.FileIn(content))
    ensures var f := Checkpoint.Loaded(content, network, contractId).value;
            && CursorTrue(s, f) && Checkpoint.Loadable(f, content) && f.network == network && f.contractId == contractId
  {
    Checkpoint.LoadedIsFileIn(content, network, contractId);
    hide StepTrue, Checkpoint.ParseRounds;
  }

  lemma NothingRecordedIsTrue(s: State)
    ensures CursorTrue(s, Checkpoint.FileIn(Checkpoint.NoFile))
  {
  }

  /** The two cursors record the same steps. */
  ghost predicate SameSteps(f: Checkpoint.File, g: Checkpoint.File) {
    forall id, step ::
      Checkpoint.HasStep(Checkpoint.EntryOf(f, id), step) == Checkpoint.HasStep(Checkpoint.EntryOf(g, id), step)
  }

  /** What a pass may do to the recorded steps: repair only drops them, a restart keeps them, all else only adds. */
  ghost predicate Moved(pass: Pass, f: Checkpoint.File, g: Checkpoint.File, alwaysWrites: bool) {
    match pass
    case Resume(_) => Shrinks(f, g)
    case Restart => alwaysWrites ==> SameSteps(f, g)
    case _ => Shrinks(g, f)
  }

  lemma GrowsIsMore(f: Checkpoint.File, g: Checkpoint.File, rid: nat)
    requires Grows(f, g, rid)
    ensures Shrinks(g, f)
  {
    forall id, step | Checkpoint.HasStep(Checkpoint.EntryOf(f, id), step)
      ensures Checkpoint.HasStep(Checkpoint.EntryOf(g, id), step)
    {
      if id != rid {
        assert Checkpoint.EntryOf(f, id) == Checkpoint.EntryOf(g, id);
      }
    }
    hide Checkpoint.FileOk;
  }

  /** A restart from a file that is up to date finds every step recorded before it, and no other. */
  lemma RestartKeepsSteps(f: Checkpoint.File, disk: Checkpoint.Content)
    requires Checkpoint.UpToDate(f, disk)
    ensures var again := Checkpoint.Loaded(disk, f.network, f.contractId); again.Ok? && SameSteps(f, again.value)
  {
    Checkpoint.UpToDateRestarts(f, disk);
    hide Checkpoint.UpToDate, Checkpoint.Loaded;
  }

  lemma LoadedIsUpToDate(content: Checkpoint.Content, network: string, contractId: string)
    requires Checkpoint.Loaded(content, network, contractId).Ok?
    ensures Checkpoint.UpToDate(Checkpoint.Loaded(content, network, contractId).value, content)
  {
  }

  /** One pass other than a restart. */
  method RunPass(chain: Chain, store: Checkpoint.Store, pass: Pass, clock: string)
    requires Inv(chain.state) && StoreTrue(store, chain.state) && !pass.Restart?
    modifies chain, store
    ensures Follows(old(chain.state), chain.state) && StoreTrue(store, chain.state)
    ensures store.data.network == old(store.data.network) && store.data.contractId == old(store.data.contractId)
    ensures Moved(pass, old(store.data), store.data, AlwaysWrites(store.writable))
  {
    hide Inv, Follows, StoreTrue, Grows, CloseReport, TickTrue, EachRevealed, SomeOverbid, EachAnswered, InTime;
    hide KeeperReveal.Swept, Swept, Proved, Keeps, Closable, Due, AllRevealed, HasStatus, Verified;
    ghost var before := store.data;
    match pass {
      case Watch(rid, sight) =>
        var _ := WatchRound(chain, store, rid, sight, clock);
        GrowsIsMore(before, store.data, rid);
      case Keep(rid, beacon, seals) =>
        var _ := KeepRound(chain, store, rid, beacon, seals, clock);
        GrowsIsMore(before, store.data, rid);
      case Close(rid, nowSeconds) =>
        var _ := CloseRound(chain, store, rid, nowSeconds, clock);
        GrowsIsMore(before, store.data, rid);
      case Resume(verify) =>
        var _, _ := ResumeCheckpoint(chain, store, verify);
    }
  }

  /**
   * The keeper's whole life, from no file at all: ticks, passes, repairs and restarts in any order, dying in any
   * of them, with anybody else calling in between and any write to disk failing. Every recorded step is true of
   * the chain, in memory and on disk, and no restart refuses its own file. `cursors` are the cursors before and
   * after each pass: only repair drops steps, and when every write succeeds a restart finds every step recorded.
   */
  method RunKeeper(chain: Chain, network: string, contractId: string, passes: seq<Pass>, writable: nat -> bool,
            clock: string)
    returns (r: Result<Checkpoint.Store, Checkpoint.LoadError>, ghost cursors: seq<Checkpoint.File>)
    requires Inv(chain.state)
    modifies chain
    ensures Follows(old(chain.state), chain.state) && Inv(chain.state)
    ensures r.Ok? && StoreTrue(r.value, chain.state) && Bound(r.value, network, contractId)
    ensures |cursors| == |passes| + 1 && cursors[0].rounds == map[] && cursors[|passes|] == r.value.data
    ensures forall i :: 0 <= i < |passes| ==> Moved(passes[i], cursors[i], cursors[i + 1], AlwaysWrites(writable))
  {
    hide Inv, Follows, StepTrue, CursorTrue, Checkpoint.FileIn;
    hide Checkpoint.Loadable, Checkpoint.UpToDate, SameSteps, Moved;
    ghost var start := chain.state;
    FollowsSelf(start);
    NothingRecordedIsTrue(start);
    MissingLoads(network, contractId);
    LoadedIsTrue(start, Checkpoint.NoFile, network, contractId);
    LoadedIsUpToDate(Checkpoint.NoFile, network, contractId);
    r := Checkpoint.OpenStore(Checkpoint.NoFile, network, contractId, writable);
    cursors := [r.value.data];
    hide Checkpoint.Loaded;
    for i := 0 to |passes|
      invariant Inv(chain.state) && Follows(start, chain.state)
      invariant r.Ok? && fresh(r.value) && StoreTrue(r.value, chain.state) && Bound(r.value, network, contractId)
      invariant r.value.writable == writable
      invariant |cursors| == i + 1 && cursors[0].rounds == map[] && cursors[i] == r.value.data
      invariant forall j :: 0 <= j < i ==> Moved(passes[j], cursors[j], cursors[j + 1], AlwaysWrites(writable))
    {
      ghost var before := r.value.data;
      if passes[i].Restart? {
        ReloadsItself(r.value.data, r.value.disk, network, contractId);
        LoadedIsTrue(chain.state, r.value.disk, network, contractId);
        LoadedIsUpToDate(r.value.disk, network, contractId);
        if AlwaysWrites(writable) {
          RestartKeepsSteps(before, r.value.disk);
        }
        r := Checkpoint.OpenStore(r.value.disk, network, contractId, writable);
        RestartMoved(before, r.value.data, AlwaysWrites(writable));
      } else {
        ghost var mid := chain.state;
        RunPass(chain, r.value, passes[i], clock);
        FollowsTrans(start, mid, chain.state);
        SoundFollows(start, chain.state);
      }
      cursors := cursors + [r.value.data];
    }
  }

  lemma RestartMoved(f: Checkpoint.File, g: Checkpoint.File, alwaysWrites: bool)
    requires alwaysWrites ==> SameSteps(f, g)
    ensures Moved(Restart, f, g, alwaysWrites)
  {
  }

  lemma MissingLoads(network: string, contractId: string)
    ensures Checkpoint.Loaded(Checkpoint.NoFile, network, contractId).Ok?
  {
  }

  lemma ReloadsItself(f: Checkpoint.File, disk: Checkpoint.Content, network: string, contractId: string)
    requires Checkpoint.Loadable(f, disk) && f.network == network && f.contractId == contractId
    ensures Checkpoint.Loaded(disk, network, contractId).Ok?
  {
  }
}
