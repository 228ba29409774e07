/** The keeper's durable cursor: recording steps, rolling them back, and repairing the file at startup. */
module Checkpoint {
  import opened Prelude
  import RoundTypes
  import Progress

  datatype KeeperStep = OpenReveal | Reveal | Clear | Settle | Void

  /** The on-chain statuses that prove a step took effect. */
  function SatisfiedBy(step: KeeperStep): set<RoundTypes.Status> {
    match step
    case OpenReveal => {RoundTypes.Revealing, RoundTypes.Cleared, RoundTypes.Settled, RoundTypes.Voided}
    case Reveal => {RoundTypes.Revealing, RoundTypes.Cleared, RoundTypes.Settled, RoundTypes.Voided}
    case Clear => {RoundTypes.Cleared, RoundTypes.Settled, RoundTypes.Voided}
    case Settle => {RoundTypes.Settled, RoundTypes.Voided}
    case Void => {RoundTypes.Voided}
  }

  /** Steps a recorded completion lets the keeper skip; `open-reveal` is never skipped. */
  const SKIP_STEPS: set<KeeperStep> := {Reveal, Clear, Settle, Void}

  datatype Entry = Entry(
    completedSteps: seq<KeeperStep>,
    lastCompletedStep: Option<KeeperStep>,
    lastTransactionHash: Option<string>,
    stepHashes: map<KeeperStep, string>,
    updatedAt: string)

  datatype File = File(network: string, contractId: string, rounds: map<nat, Entry>)

  const UNKNOWN_TIMESTAMP: string := "1970-01-01T00:00:00.000Z"

  // ---- Pure cursor updates ---------------------------------------------------------

  function StepEntry(previous: Option<Entry>, step: KeeperStep, hash: Option<string>, at: Option<string>): Entry {
    var steps := if previous.Some? then previous.value.completedSteps else [];
    var hashes := if previous.Some? then previous.value.stepHashes else map[];
    Entry(if step in steps then steps else steps + [step],
          Some(step), hash,
          if hash.Some? && hash.value != "" then hashes[step := hash.value] else hashes - {step},
          if at.Some? then at.value else if previous.Some? then previous.value.updatedAt else UNKNOWN_TIMESTAMP)
  }

  function EntryOf(file: File, id: nat): Option<Entry> {
    if id in file.rounds then Some(file.rounds[id]) else None
  }

  /** `planCheckpointStep`. */
  function PlanCheckpointStep(file: File, id: nat, step: KeeperStep, hash: Option<string>, at: Option<string>): File {
    file.(rounds := file.rounds[id := StepEntry(EntryOf(file, id), step, hash, at)])
  }

  /** The steps not in `drop`, in order. */
  function Without(steps: seq<KeeperStep>, drop: set<KeeperStep>): (r: seq<KeeperStep>)
    ensures forall s :: s in r <==> s in steps && s !in drop
    ensures NoDup(steps) ==> NoDup(r)
  {
    if steps == [] then []
    else
      var front := Without(steps[..|steps| - 1], drop);
      if steps[|steps| - 1] in drop then front else front + [steps[|steps| - 1]]
  }

  function WithSteps(e: Entry, steps: seq<KeeperStep>, hashes: map<KeeperStep, string>): Entry {
    var last := if |steps| > 0 then Some(steps[|steps| - 1]) else None;
    e.(completedSteps := steps, stepHashes := hashes, lastCompletedStep := last,
       lastTransactionHash := if last.Some? && last.value in hashes then Some(hashes[last.value]) else None)
  }

  /** An entry without the steps in `drop`, its tail fields brought up to date. */
  function Trimmed(e: Entry, drop: set<KeeperStep>): Entry {
    WithSteps(e, Without(e.completedSteps, drop), e.stepHashes - drop)
  }

  /** `planCheckpointRollback`. */
  function PlanCheckpointRollback(file: File, id: nat, step: KeeperStep): File {
    if id !in file.rounds || step !in file.rounds[id].completedSteps then file
    else file.(rounds := file.rounds[id := Trimmed(file.rounds[id], {step})])
  }

  function HasStep(e: Option<Entry>, step: KeeperStep): bool {
    e.Some? && step in e.value.completedSteps
  }

  // ---- What the store keeps true --------------------------------------------------------

  /** The tail fields agree with the steps: the last step is a recorded one, and its hash is the recorded hash. */
  ghost predicate TailOk(e: Entry) {
    && (e.lastCompletedStep.None? <==> e.completedSteps == [])
    && (e.lastCompletedStep.Some? ==> e.lastCompletedStep.value in e.completedSteps)
    && (e.lastCompletedStep.Some? && e.lastCompletedStep.value in e.stepHashes ==>
          e.lastTransactionHash == Some(e.stepHashes[e.lastCompletedStep.value]))
    && (e.lastCompletedStep.Some? && e.lastCompletedStep.value !in e.stepHashes ==>
          e.lastTransactionHash == None || e.lastTransactionHash == Some(""))
  }

  /** A store-written entry: no step twice, and a hash, never empty, only for a recorded step. */
  ghost predicate EntryOk(e: Entry) {
    && NoDup(e.completedSteps)
    && (forall s :: s in e.stepHashes ==> s in e.completedSteps && e.stepHashes[s] != "")
  }

  ghost predicate FileOk(f: File) {
    forall id :: id in f.rounds ==> EntryOk(f.rounds[id])
  }

  ghost predicate Hits(steps: seq<KeeperStep>, drop: set<KeeperStep>) {
    exists s :: s in drop && s in steps
  }

  /** An entry with all of `drop` removed, untouched when none of them was recorded. */
  ghost function Pruned(e: Entry, drop: set<KeeperStep>): Entry {
    if Hits(e.completedSteps, drop) then Trimmed(e, drop) else e
  }

  lemma {:induction false} WithoutTwice(steps: seq<KeeperStep>, a: set<KeeperStep>, b: set<KeeperStep>)
    ensures Without(Without(steps, a), b) == Without(steps, a + b)
  {
    if steps != [] {
      WithoutTwice(steps[..|steps| - 1], a, b);
      var front := Without(steps[..|steps| - 1], a);
      if steps[|steps| - 1] !in a {
        assert (front + [steps[|steps| - 1]])[..|front|] == front;
      }
    }
  }

  lemma {:induction false} WithoutNothing(steps: seq<KeeperStep>, drop: set<KeeperStep>)
    requires forall s :: s in steps ==> s !in drop
    ensures Without(steps, drop) == steps
  {
    if steps != [] {
      WithoutNothing(steps[..|steps| - 1], drop);
      assert steps == steps[..|steps| - 1] + [steps[|steps| - 1]];
    }
  }

  lemma TrimTwice(e: Entry, a: set<KeeperStep>, b: set<KeeperStep>)
    ensures Trimmed(Trimmed(e, a), b) == Trimmed(e, a + b)
  {
    WithoutTwice(e.completedSteps, a, b);
    assert e.stepHashes - a - b == e.stepHashes - (a + b);
    hide Without;
  }

  /** Rolling back one more recorded step prunes one more step. */
  lemma PruneOneMore(e: Entry, drop: set<KeeperStep>, step: KeeperStep)
    requires drop <= ToSet(e.completedSteps) && step in e.completedSteps
    ensures Pruned(e, drop + {step}) == Trimmed(Pruned(e, drop), {step})
  {
    TrimTwice(e, drop, {step});
    assert step in drop + {step};
    if !Hits(e.completedSteps, drop) {
      assert drop == {} && drop + {step} == {step};
    }
    hide Trimmed;
  }

  /** Pruning recorded steps removes exactly those steps and their hashes, and spoils nothing. */
  lemma PrunedIsExact(e: Entry, drop: set<KeeperStep>)
    requires drop <= ToSet(e.completedSteps)
    ensures forall s :: s in Pruned(e, drop).completedSteps <==> s in e.completedSteps && s !in drop
    ensures forall s :: s in Pruned(e, drop).stepHashes <==> s in e.stepHashes && s !in drop
    ensures forall s :: s in Pruned(e, drop).stepHashes ==> Pruned(e, drop).stepHashes[s] == e.stepHashes[s]
    ensures EntryOk(e) ==> EntryOk(Pruned(e, drop))
    ensures TailOk(e) ==> TailOk(Pruned(e, drop))
  {
    if !Hits(e.completedSteps, drop) {
      assert drop == {};
    }
    hide Without;
  }

  /** And leaves the others in their order, and the time stamp. */
  lemma PrunedKeepsOrder(e: Entry, drop: set<KeeperStep>)
    requires drop <= ToSet(e.completedSteps)
    ensures Pruned(e, drop).completedSteps == Without(e.completedSteps, drop)
            && Pruned(e, drop).updatedAt == e.updatedAt
  {
    if !Hits(e.completedSteps, drop) {
      assert drop == {};
      WithoutNothing(e.completedSteps, {});
    }
    hide Without;
  }

  /** Dropping steps keeps the order of the others. */
  lemma {:induction false} WithoutConcat(a: seq<KeeperStep>, b: seq<KeeperStep>, drop: set<KeeperStep>)
    ensures Without(a + b, drop) == Without(a, drop) + Without(b, drop)
    decreases |b|
  {
    if b == [] {
      assert a + b == a;
    } else {
      assert (a + b)[..|a + b| - 1] == a + b[..|b| - 1];
      WithoutConcat(a, b[..|b| - 1], drop);
    }
  }

  /** Every write of the store leaves its entries well formed, and records the step and no other. */
  lemma StepKeepsFileOk(f: File, id: nat, step: KeeperStep, hash: Option<string>, at: Option<string>)
    ensures var g := PlanCheckpointStep(f, id, step, hash, at);
            && (FileOk(f) ==> FileOk(g)) && TailOk(g.rounds[id]) && HasStep(EntryOf(g, id), step)
            && (forall k, s :: !(k == id && s == step) ==> HasStep(EntryOf(g, k), s) == HasStep(EntryOf(f, k), s))
  {
    StepKeepsEntryOk(EntryOf(f, id), step, hash, at);
    hide StepEntry, EntryOk, TailOk;
  }

  /** What recording a step writes: the step once, at the end; its hash, and no other; its time, when one is given. */
  lemma StepEntryIs(e: Option<Entry>, step: KeeperStep, hash: Option<string>, at: Option<string>)
    ensures var n := StepEntry(e, step, hash, at);
            var steps := if e.Some? then e.value.completedSteps else [];
            var hashes := if e.Some? then e.value.stepHashes else map[];
            && n.completedSteps == (if HasStep(e, step) then steps else steps + [step])
            && n.lastCompletedStep == Some(step) && n.lastTransactionHash == hash
            && (forall s :: s != step ==>
                  (s in n.stepHashes <==> s in hashes) && (s in hashes ==> n.stepHashes[s] == hashes[s]))
            && (step in n.stepHashes <==> hash.Some? && hash.value != "")
            && (step in n.stepHashes ==> hash == Some(n.stepHashes[step]))
            && (at.Some? ==> n.updatedAt == at.value)
            && (at.None? ==> n.updatedAt == if e.Some? then e.value.updatedAt else "1970-01-01T00:00:00.000Z")
  {
  }

  lemma StepKeepsEntryOk(e: Option<Entry>, step: KeeperStep, hash: Option<string>, at: Option<string>)
    ensures (e.Some? ==> EntryOk(e.value)) ==> EntryOk(StepEntry(e, step, hash, at))
    ensures TailOk(StepEntry(e, step, hash, at))
    ensures forall s :: s in StepEntry(e, step, hash, at).completedSteps <==> s == step || HasStep(e, s)
  {
  }

  // ---- The store ----------------------------------------------------------------------------

  /** Outcome of one transaction lookup; `Unreachable` is a lookup that threw. */
  datatype Lookup = Confirmed | Failed | Missing | Unreachable

  datatype Verification = Verification(id: nat, step: KeeperStep, hash: string, status: Lookup, retained: bool)

  type Verifier = (nat, KeeperStep, string) -> Lookup

  /** A lookup that confirms, or throws, costs no progress. */
  predicate Keeps(answer: Lookup) {
    answer.Confirmed? || answer.Unreachable?
  }

  /** Recorded steps whose hash came back failed or missing. */
  function Refuted(id: nat, e: Entry, verify: Verifier): set<KeeperStep> {
    set s | s in e.completedSteps && s in e.stepHashes && !Keeps(verify(id, s, e.stepHashes[s]))
  }

  predicate Hashed(e: Entry, step: KeeperStep) {
    step in e.stepHashes && e.stepHashes[step] != ""
  }

  /** Steps neither backed by a hash nor proved by the status. */
  function Unproved(e: Entry, status: RoundTypes.Status): set<KeeperStep> {
    set s | s in e.completedSteps && !Hashed(e, s) && status !in SatisfiedBy(s)
  }

  /** The report on one hash: a lookup that threw is reported as missing, and keeps the step. */
  function ReportFor(id: nat, step: KeeperStep, hash: string, verify: Verifier): Verification {
    var answer := verify(id, step, hash);
    Verification(id, step, hash, if answer == Unreachable then Missing else answer, Keeps(answer))
  }

  /** A step is retained exactly when its lookup confirmed or threw; a lookup that threw is reported as missing. */
  lemma ReportIs(id: nat, step: KeeperStep, hash: string, verify: Verifier)
    ensures var r := ReportFor(id, step, hash, verify); var answer := verify(id, step, hash);
            && r.id == id && r.step == step && r.hash == hash
            && (r.retained <==> answer in {Confirmed, Unreachable})
            && (r.status == Missing <==> answer in {Missing, Unreachable})
            && (r.status == Confirmed <==> answer == Confirmed) && (r.status == Failed <==> answer == Failed)
  {
  }

  /** No lookup cost its step. */
  ghost predicate AllRetained(results: seq<Verification>) {
    forall r :: r in results ==> r.retained
  }

  lemma AllRetainedConcat(a: seq<Verification>, b: seq<Verification>)
    ensures AllRetained(a + b) <==> AllRetained(a) && AllRetained(b)
  {
    assert forall r :: r in a + b <==> r in a || r in b;
  }

  lemma OneRetained(r: Verification)
    ensures AllRetained([r]) <==> r.retained
  {
    assert r in [r];
  }

  ghost predicate Truthful(r: Verification, verify: Verifier) {
    r == ReportFor(r.id, r.step, r.hash, verify)
  }

  /** The hash of every step of the entry, except those in `todo`, has its report. */
  ghost predicate Reported(results: seq<Verification>, id: nat, e: Entry, todo: set<KeeperStep>, verify: Verifier) {
    forall s :: s in e.stepHashes && s !in todo ==> ReportFor(id, s, e.stepHashes[s], verify) in results
  }

  lemma PrunedNothing(e: Entry)
    ensures Pruned(e, {}) == e
  {
  }

  /** One rollback on a file whose entry is already pruned of `drop`: the step goes too, if it was there. */
  lemma RollBackPruned(f: File, id: nat, e: Entry, drop: set<KeeperStep>, step: KeeperStep)
    requires drop <= ToSet(e.completedSteps)
    ensures PlanCheckpointRollback(f.(rounds := f.rounds[id := Pruned(e, drop)]), id, step)
         == f.(rounds := f.rounds[id := Pruned(e, if step in e.completedSteps then drop + {step} else drop)])
  {
    hide Trimmed;
    PrunedIsExact(e, drop);
    if step in drop {
      assert drop + {step} == drop;
    } else if step in e.completedSteps {
      PruneOneMore(e, drop, step);
    }
    hide Pruned;
  }

  // ---- The file on disk -------------------------------------------------------------------------

  const VERSION: int := 1

  /** One round entry as parsed; a field that is not of its kind is `None`, and so is a name of no step. */
  datatype RawEntry =
    | NotAnObject
    | RawEntry(
        completedSteps: Option<seq<Option<KeeperStep>>>,
        stepHashes: Option<map<KeeperStep, Option<string>>>,
        lastTransactionHash: Option<string>,
        updatedAt: Option<string>)

  datatype RawFile = RawFile(
    version: Option<int>,
    network: Option<string>,
    contractId: Option<string>,
    rounds: map<nat, RawEntry>)

  /** What is found at the checkpoint path. */
  datatype Content = NoFile | Blank | Unparseable | Null | Parsed(file: RawFile)

  datatype LoadError = Mismatch(field: string) | UnsupportedVersion | NullFile

  /** The known steps, in order. */
  function KnownSteps(steps: seq<Option<KeeperStep>>): seq<KeeperStep> {
    if steps == [] then []
    else
      var front := KnownSteps(steps[..|steps| - 1]);
      if steps[|steps| - 1].None? then front else front + [steps[|steps| - 1].value]
  }

  function KnownHashes(hashes: map<KeeperStep, Option<string>>): map<KeeperStep, string> {
    map s | s in hashes && hashes[s].Some? && hashes[s].value != "" :: hashes[s].value
  }

  /** `parseCheckpointEntry`. */
  function ParseEntry(raw: RawEntry): Option<Entry> {
    if raw.NotAnObject? then None
    else
      var steps := if raw.completedSteps.Some? then KnownSteps(raw.completedSteps.value) else [];
      Some(Entry(
             steps,
             if |steps| > 0 then Some(steps[|steps| - 1]) else None,
             raw.lastTransactionHash,
             if raw.stepHashes.Some? then KnownHashes(raw.stepHashes.value) else map[],
             if raw.updatedAt.Some? then raw.updatedAt.value else UNKNOWN_TIMESTAMP))
  }

  function ParseRounds(raw: map<nat, RawEntry>): map<nat, Entry> {
    map id | id in raw && ParseEntry(raw[id]).Some? :: ParseEntry(raw[id]).value
  }

  /** What loading comes to: an empty cursor, the file's cursor, or a refusal to start. */
  function Loaded(content: Content, network: string, contractId: string): Result<File, LoadError> {
    match content
    case NoFile | Blank | Unparseable => Ok(File(network, contractId, map[]))
    case Null => Err(NullFile)
    case Parsed(raw) =>
      if raw.network != Some(network) then Err(Mismatch("network"))
      else if raw.contractId != Some(contractId) then Err(Mismatch("contractId"))
      else if raw.version != Some(VERSION) then Err(UnsupportedVersion)
      else Ok(File(network, contractId, ParseRounds(raw.rounds)))
  }

  function Shown(steps: seq<KeeperStep>): seq<Option<KeeperStep>> {
    seq(|steps|, i requires 0 <= i < |steps| => Some(steps[i]))
  }

  /** The text of a value written by `save`, parsed back. */
  function WrittenEntry(e: Entry): RawEntry {
    RawEntry(
      Some(Shown(e.completedSteps)),
      Some(map s | s in e.stepHashes :: Some(e.stepHashes[s])),
      e.lastTransactionHash,
      Some(e.updatedAt))
  }

  function Written(f: File): Content {
    var rounds := map id | id in f.rounds :: WrittenEntry(f.rounds[id]);
    Parsed(RawFile(Some(VERSION), Some(f.network), Some(f.contractId), rounds))
  }

  lemma {:induction false} KnownOfShown(steps: seq<KeeperStep>)
    ensures KnownSteps(Shown(steps)) == steps
  {
    if steps != [] {
      var front := steps[..|steps| - 1];
      assert Shown(steps)[..|steps| - 1] == Shown(front);
      KnownOfShown(front);
    }
  }

  /** An entry read back: its steps, hashes and stamps are kept, and its last step becomes the last in order. */
  function Reread(e: Entry): Entry {
    e.(lastCompletedStep := if |e.completedSteps| > 0 then Some(e.completedSteps[|e.completedSteps| - 1]) else None)
  }

  lemma EntryReadsBack(e: Entry)
    requires EntryOk(e)
    ensures ParseEntry(WrittenEntry(e)) == Some(Reread(e))
  {
    KnownOfShown(e.completedSteps);
    var raw := map s | s in e.stepHashes :: Some(e.stepHashes[s]);
    assert KnownHashes(raw) == e.stepHashes;
  }

  /**
   * A file the store wrote loads again, under its own network and contract only, with every step and hash it
   * had. It comes back unchanged exactly when the last step of each entry is the last in its list: recording a
   * step a second time names it last without moving it.
   */
  lemma WrittenLoadsAgain(f: File, network: string, contractId: string)
    requires FileOk(f)
    ensures var r := Loaded(Written(f), network, contractId);
            && (r.Ok? <==> network == f.network && contractId == f.contractId)
            && (r.Ok? ==>
                  && r.value == f.(rounds := map id | id in f.rounds :: Reread(f.rounds[id]))
                  && (forall id, s :: HasStep(EntryOf(r.value, id), s) == HasStep(EntryOf(f, id), s))
                  && FileOk(r.value)
                  && (r.value == f <==> forall id :: id in f.rounds ==> Reread(f.rounds[id]) == f.rounds[id]))
  {
    hide ParseEntry, WrittenEntry;
    var raw := map id | id in f.rounds :: WrittenEntry(f.rounds[id]);
    forall id | id in f.rounds
      ensures ParseEntry(raw[id]) == Some(Reread(f.rounds[id]))
    {
      EntryReadsBack(f.rounds[id]);
    }
    var back := map id | id in f.rounds :: Reread(f.rounds[id]);
    assert ParseRounds(raw) == back;
    if back == f.rounds {
      assert forall id :: id in f.rounds ==> back[id] == f.rounds[id];
    } else {
      assert f.(rounds := back) != f;
    }
  }

  /** The cursor a file holds, whoever it was written for. */
  function FileIn(content: Content): File {
    if content.Parsed? then File("", "", ParseRounds(content.file.rounds)) else File("", "", map[])
  }

  /** The file would load again under the binding of the cursor. */
  predicate Loadable(f: File, disk: Content) {
    Loaded(disk, f.network, f.contractId).Ok?
  }

  lemma WrittenIsLoadable(f: File)
    ensures Loadable(f, Written(f))
  {
  }

  /** The file is the cursor as last written, or the one the cursor was loaded from. */
  ghost predicate UpToDate(f: File, disk: Content) {
    disk == Written(f) || Loaded(disk, f.network, f.contractId) == Ok(f)
  }

  /** From a file that is up to date a restart finds exactly the steps recorded. */
  lemma UpToDateRestarts(f: File, disk: Content)
    requires UpToDate(f, disk)
    ensures var again := Loaded(disk, f.network, f.contractId);
            && again.Ok?
            && forall id, s :: HasStep(EntryOf(again.value, id), s) == HasStep(EntryOf(f, id), s)
  {
    if disk == Written(f) {
      WrittenSteps(f);
      WrittenIsLoadable(f);
      LoadedIsFileIn(disk, f.network, f.contractId);
    }
    hide Written, ParseRounds;
  }

  /** What is loaded is what the file holds. */
  lemma LoadedIsFileIn(content: Content, network: string, contractId: string)
    requires Loaded(content, network, contractId).Ok?
    ensures Loaded(content, network, contractId).value == FileIn(content).(network := network, contractId := contractId)
  {
  }

  lemma WrittenEntrySteps(e: Entry)
    ensures ParseEntry(WrittenEntry(e)).Some? && ParseEntry(WrittenEntry(e)).value.completedSteps == e.completedSteps
  {
    KnownOfShown(e.completedSteps);
  }

  /** A written file holds the steps of the cursor it was written from. */
  lemma WrittenSteps(f: File)
    ensures forall id, s :: HasStep(EntryOf(FileIn(Written(f)), id), s) == HasStep(EntryOf(f, id), s)
  {
    hide ParseEntry, WrittenEntry;
    forall id | id in f.rounds
      ensures ParseEntry(WrittenEntry(f.rounds[id])).Some?
      ensures ParseEntry(WrittenEntry(f.rounds[id])).value.completedSteps == f.rounds[id].completedSteps
    {
      WrittenEntrySteps(f.rounds[id]);
    }
  }

  /** Recording `reveal` again after `clear`: the entry read back credits `clear` with the hash of `reveal`. */
  lemma ReloadMisattributes()
    ensures var e := StepEntry(Some(Entry([Reveal, Clear], Some(Clear), None, map[], "")), Reveal, Some("h"), None);
            && EntryOk(e) && TailOk(e) && !TailOk(Reread(e))
            && Reread(e).lastCompletedStep == Some(Clear) && Reread(e).lastTransactionHash == Some(e.stepHashes[Reveal])
  {
    var before := Entry([Reveal, Clear], Some(Clear), None, map[], "");
    assert EntryOk(before);
    StepKeepsEntryOk(Some(before), Reveal, Some("h"), None);
    assert StepEntry(Some(before), Reveal, Some("h"), None)
        == Entry([Reveal, Clear], Some(Reveal), Some("h"), map[Reveal := "h"], "");
  }

  lemma {:induction false} KnownStepsAre(steps: seq<Option<KeeperStep>>)
    ensures forall s :: s in KnownSteps(steps) <==> Some(s) in steps
  {
    if steps != [] {
      KnownStepsAre(steps[..|steps| - 1]);
      assert steps == steps[..|steps| - 1] + [steps[|steps| - 1]];
    }
  }

  /** Known steps keep their order. */
  lemma {:induction false} KnownStepsConcat(a: seq<Option<KeeperStep>>, b: seq<Option<KeeperStep>>)
    ensures KnownSteps(a + b) == KnownSteps(a) + KnownSteps(b)
    decreases |b|
  {
    if b == [] {
      assert a + b == a;
    } else {
      assert (a + b)[..|a + b| - 1] == a + b[..|b| - 1];
      KnownStepsConcat(a, b[..|b| - 1]);
    }
  }

  /** What is read of a stored entry: its known steps, its hashes that are text, and its stamps. */
  lemma ParsedIs(raw: RawEntry)
    ensures ParseEntry(raw).Some? <==> raw.RawEntry?
    ensures raw.RawEntry? ==>
              var e := ParseEntry(raw).value;
              && (forall s :: s in e.completedSteps <==>
                    raw.completedSteps.Some? && Some(s) in raw.completedSteps.value)
              && (forall s :: s in e.stepHashes <==>
                    && raw.stepHashes.Some? && s in raw.stepHashes.value && raw.stepHashes.value[s].Some?
                    && raw.stepHashes.value[s].value != "")
              && (forall s :: s in e.stepHashes ==> raw.stepHashes.value[s] == Some(e.stepHashes[s]))
              && e.lastTransactionHash == raw.lastTransactionHash
              && (raw.updatedAt.Some? ==> e.updatedAt == raw.updatedAt.value)
              && (raw.updatedAt.None? ==> e.updatedAt == "1970-01-01T00:00:00.000Z")
  {
    if raw.RawEntry? && raw.completedSteps.Some? {
      KnownStepsAre(raw.completedSteps.value);
    }
    hide KnownSteps;
  }

  /** Which files start a keeper, and why the others do not. */
  lemma LoadsIff(content: Content, network: string, contractId: string)
    ensures var r := Loaded(content, network, contractId); var ours := File(network, contractId, map[]);
            match content
            case NoFile | Blank | Unparseable => r == Ok(ours)
            case Null => r == Err(NullFile)
            case Parsed(raw) =>
              && (r.Ok? <==>
                    raw.network == Some(network) && raw.contractId == Some(contractId) && raw.version == Some(1))
              && (r == Err(Mismatch("network")) <==> raw.network != Some(network))
              && (r == Err(Mismatch("contractId")) ==> raw.contractId != Some(contractId))
              && (r == Err(UnsupportedVersion) ==> raw.version != Some(1))
              && (r.Ok? ==>
                    && r.value.(rounds := map[]) == ours
                    && (forall id :: id !in raw.rounds ==> EntryOf(r.value, id) == None)
                    && (forall id :: id in raw.rounds ==> EntryOf(r.value, id) == ParseEntry(raw.rounds[id])))
  {
    assert "network" != "contractId" by {
      assert "network"[0] != "contractId"[0];
    }
    hide ParseEntry;
  }

  /** Whatever was on disk, a loaded entry has no empty hash, and its last step is the last of its steps. */
  lemma LoadedIsTidy(content: Content, network: string, contractId: string, id: nat)
    requires Loaded(content, network, contractId).Ok? && id in Loaded(content, network, contractId).value.rounds
    ensures var e := Loaded(content, network, contractId).value.rounds[id];
            Reread(e) == e && forall s :: s in e.stepHashes ==> Hashed(e, s)
  {
    hide KnownSteps;
  }

  /** Loading the file: the rounds are parsed one by one. */
  method Load(content: Content, network: string, contractId: string) returns (r: Result<File, LoadError>)
    ensures r == Loaded(content, network, contractId)
  {
    if content.Null? {
      return Err(NullFile);
    }
    if !content.Parsed? {
      return Ok(File(network, contractId, map[]));
    }
    var raw := content.file;
    if raw.network != Some(network) {
      return Err(Mismatch("network"));
    }
    if raw.contractId != Some(contractId) {
      return Err(Mismatch("contractId"));
    }
    if raw.version != Some(VERSION) {
      return Err(UnsupportedVersion);
    }
    hide ParseEntry;
    var rounds: map<nat, Entry> := map[];
    var todo := raw.rounds.Keys;
    while todo != {}
      invariant todo <= raw.rounds.Keys
      invariant rounds == map id | id in raw.rounds && id !in todo && ParseEntry(raw.rounds[id]).Some?
                                :: ParseEntry(raw.rounds[id]).value
      decreases todo
    {
      var id :| id in todo;
      todo := todo - {id};
      var entry := ParseEntry(raw.rounds[id]);
      if entry.Some? {
        rounds := rounds[id := entry.value];
      }
    }
    assert rounds == ParseRounds(raw.rounds);
    r := Ok(File(network, contractId, rounds));
  }

  predicate Ascending(ids: seq<nat>) {
    forall i, j :: 0 <= i < j < |ids| ==> ids[i] < ids[j]
  }

  predicate IsLeast(s: set<nat>, m: nat) {
    m in s && forall k :: k in s ==> m <= k
  }

  lemma {:induction false} HasLeast(s: set<nat>, n: nat)
    requires n in s
    ensures exists m :: IsLeast(s, m)
    decreases n
  {
    if !IsLeast(s, n) {
      var k :| k in s && k < n;
      HasLeast(s, k);
    }
  }

  /** The ids listed so far, of `all`: the least ones, ascending. */
  ghost predicate Listed(ids: seq<nat>, todo: set<nat>, all: set<nat>) {
    && todo <= all && ToSet(ids) == all - todo && Ascending(ids)
    && forall i, k :: 0 <= i < |ids| && k in todo ==> ids[i] < k
  }

  lemma ListNext(ids: seq<nat>, todo: set<nat>, all: set<nat>, id: nat)
    requires Listed(ids, todo, all) && IsLeast(todo, id)
    ensures Listed(ids + [id], todo - {id}, all)
  {
    assert forall i :: i in ids + [id] <==> i in ids || i == id;
    assert ToSet(ids + [id]) == ToSet(ids) + {id};
  }

  /**
   * The cursor of one process and the file behind it. `writable(k)` says whether the k-th write succeeds;
   * a write that fails is only logged, so the file may lag behind the cursor.
   */
  class Store {
    var data: File
    var disk: Content
    var saves: nat
    const writable: nat -> bool

    /** A store over a file already loaded. */
    constructor (file: File, disk: Content, writable: nat -> bool)
      ensures data == file && this.disk == disk && saves == 0 && this.writable == writable
    {
      data, saves := file, 0;
      this.disk := disk;
      this.writable := writable;
    }

    /** What the file holds after trying to write `file` now. */
    function AfterSave(file: File): Content
      reads this
    {
      if writable(saves) then Written(file) else disk
    }

    /** `save`. */
    method Save()
      modifies this
      ensures data == old(data) && disk == old(AfterSave(data)) && saves == old(saves) + 1
    {
      if writable(saves) {
        disk := Written(data);
      }
      saves := saves + 1;
    }

    method MarkComplete(id: nat, step: KeeperStep, hash: Option<string>, now: string)
      modifies this
      ensures data == PlanCheckpointStep(old(data), id, step, hash, Some(now))
      ensures disk == old(AfterSave(PlanCheckpointStep(data, id, step, hash, Some(now)))) && saves == old(saves) + 1
    {
      data := PlanCheckpointStep(data, id, step, hash, Some(now));
      Save();
    }

    /** Ascending. */
    method ListRoundIds() returns (ids: seq<nat>)
      ensures ToSet(ids) == data.rounds.Keys && Ascending(ids)
    {
      ids := [];
      var todo := data.rounds.Keys;
      while todo != {}
        invariant Listed(ids, todo, data.rounds.Keys)
        decreases todo
      {
        ghost var some :| some in todo;
        HasLeast(todo, some);
        var id :| id in todo && IsLeast(todo, id);
        ListNext(ids, todo, data.rounds.Keys, id);
        todo := todo - {id};
        ids := ids + [id];
      }
    }

    /** Re-check every recorded hash, in whatever order the entries enumerate. */
    method VerifyHashes(verify: Option<Verifier>) returns (results: seq<Verification>)
      modifies this
      ensures if AllRetained(results) then data == old(data) && disk == old(disk) && saves == old(saves)
              else disk == (if writable(old(saves)) then Written(data) else old(disk)) && saves == old(saves) + 1
      ensures verify == None ==> data == old(data) && results == []
      ensures verify.Some? ==>
                && data.(rounds := old(data).rounds) == old(data) && data.rounds.Keys == old(data).rounds.Keys
                && (forall id :: id in data.rounds ==>
                      data.rounds[id] == Pruned(old(data).rounds[id], Refuted(id, old(data).rounds[id], verify.value)))
                && (forall r :: r in results ==> Truthful(r, verify.value))
                && (forall id :: id in old(data).rounds ==>
                      Reported(results, id, old(data).rounds[id], {}, verify.value))
    {
      results := [];
      if verify.None? {
        return;
      }
      var changed := false;
      ghost var start := data;
      var todo := data.rounds.Keys;
      while todo != {}
        invariant todo <= start.rounds.Keys == data.rounds.Keys && disk == old(disk) && saves == old(saves)
        invariant changed <==> !AllRetained(results)
        invariant !changed ==> data == start
        invariant data.(rounds := start.rounds) == start
        invariant forall id :: id in todo ==> data.rounds[id] == start.rounds[id]
        invariant forall id :: id in start.rounds && id !in todo ==>
                    data.rounds[id] == Pruned(start.rounds[id], Refuted(id, start.rounds[id], verify.value))
        invariant forall r :: r in results ==> Truthful(r, verify.value)
        invariant forall id :: id in start.rounds && id !in todo ==>
                  Reported(results, id, start.rounds[id], {}, verify.value)
        decreases todo
      {
        var id :| id in todo;
        todo := todo - {id};
        var more, some := VerifyEntry(id, data.rounds[id], verify.value);
        AllRetainedConcat(results, more);
        results, changed := results + more, changed || some;
      }
      if changed {
        Save();
      }
    }

    /** The inner loop of `verifyHashes`: the hashes of one entry. */
    method VerifyEntry(id: nat, entry: Entry, verify: Verifier)
      returns (results: seq<Verification>, changed: bool)
      requires id in data.rounds && data.rounds[id] == entry
      modifies this
      ensures data == old(data).(rounds := old(data).rounds[id := Pruned(entry, Refuted(id, entry, verify))])
      ensures disk == old(disk) && saves == old(saves)
      ensures (changed <==> !AllRetained(results)) && (!changed ==> data == old(data))
      ensures forall r :: r in results ==> Truthful(r, verify)
      ensures Reported(results, id, entry, {}, verify)
    {
      hide Pruned, PlanCheckpointRollback;
      results, changed := [], false;
      ghost var start := data;
      var todo := entry.stepHashes.Keys;
      ghost var refuted := Refuted(id, entry, verify);
      PrunedNothing(entry);
      assert start == start.(rounds := start.rounds[id := entry]);
      assert refuted - todo == {};
      while todo != {}
        invariant todo <= entry.stepHashes.Keys && disk == old(disk) && saves == old(saves)
        invariant (changed <==> !AllRetained(results)) && (!changed ==> data == start)
        invariant data == start.(rounds := start.rounds[id := Pruned(entry, refuted - todo)])
        invariant forall r :: r in results ==> Truthful(r, verify)
        invariant Reported(results, id, entry, todo, verify)
        decreases todo
      {
        var step :| step in todo;
        ghost var before := refuted - todo;
        todo := todo - {step};
        var hash := entry.stepHashes[step];
        var status := verify(id, step, hash);
        AllRetainedConcat(results, [ReportFor(id, step, hash, verify)]);
        OneRetained(ReportFor(id, step, hash, verify));
        if status == Unreachable {
          results := results + [Verification(id, step, hash, Missing, true)];
        } else {
          var retained := status == Confirmed;
          results := results + [Verification(id, step, hash, status, retained)];
          if !retained {
            RollBackPruned(start, id, entry, before, step);
            data, changed := PlanCheckpointRollback(data, id, step), true;
          }
        }
        assert refuted - todo == if step in refuted then before + {step} else before;
      }
      assert refuted - todo == refuted;
    }

    /** Drop the steps of a round that nothing proves, and report them. */
    method Reconcile(id: nat, status: RoundTypes.Status) returns (dropped: seq<KeeperStep>)
      modifies this
      ensures if dropped == [] then data == old(data) && disk == old(disk) && saves == old(saves)
              else disk == (if writable(old(saves)) then Written(data) else old(disk)) && saves == old(saves) + 1
      ensures id !in old(data).rounds ==> data == old(data) && dropped == []
      ensures id in old(data).rounds ==>
                var e := old(data).rounds[id];
                && ToSet(dropped) == Unproved(e, status)
                && data == old(data).(rounds := old(data).rounds[id := Pruned(e, Unproved(e, status))])
    {
      dropped := [];
      if id !in data.rounds {
        return;
      }
      var entry := data.rounds[id];
      dropped := StepsToDrop(entry, status);
      if |dropped| == 0 {
        assert Unproved(entry, status) == {};
        PrunedNothing(entry);
        assert data == data.(rounds := data.rounds[id := entry]);
        return;
      }
      assert forall s :: s in dropped ==> s in ToSet(dropped);
      RollBackEach(id, entry, dropped);
      Save();
    }

    /** The second loop of `reconcile`. */
    method RollBackEach(id: nat, entry: Entry, dropped: seq<KeeperStep>)
      requires id in data.rounds && data.rounds[id] == entry
      requires forall s :: s in dropped ==> s in entry.completedSteps
      modifies this
      ensures disk == old(disk) && saves == old(saves)
      ensures data == old(data).(rounds := old(data).rounds[id := Pruned(entry, ToSet(dropped))])
    {
      hide Pruned, PlanCheckpointRollback;
      ghost var start := data;
      PrunedNothing(entry);
      assert ToSet(dropped[..0]) == {};
      assert start == start.(rounds := start.rounds[id := entry]);
      for i := 0 to |dropped|
        invariant data == start.(rounds := start.rounds[id := Pruned(entry, ToSet(dropped[..i]))])
        invariant disk == old(disk) && saves == old(saves)
      {
        RollBackPruned(start, id, entry, ToSet(dropped[..i]), dropped[i]);
        assert ToSet(dropped[..i + 1]) == ToSet(dropped[..i]) + {dropped[i]};
        data := PlanCheckpointRollback(data, id, dropped[i]);
      }
      assert dropped[..|dropped|] == dropped;
    }
  }

  /** The store's constructor: it loads what is at its path, or refuses to start. */
  method OpenStore(content: Content, network: string, contractId: string, writable: nat -> bool)
    returns (r: Result<Store, LoadError>)
    ensures r.Err? ==> Loaded(content, network, contractId) == Err(r.error)
    ensures r.Ok? ==>
              && fresh(r.value) && Loaded(content, network, contractId) == Ok(r.value.data) && r.value.disk == content
              && r.value.saves == 0 && r.value.writable == writable
  {
    var file :- Load(content, network, contractId);
    var store := new Store(file, content, writable);
    r := Ok(store);
  }

  /** The first loop of `reconcile`: the recorded steps nothing proves, in order. */
  method StepsToDrop(entry: Entry, status: RoundTypes.Status) returns (dropped: seq<KeeperStep>)
    ensures ToSet(dropped) == Unproved(entry, status) && (NoDup(entry.completedSteps) ==> NoDup(dropped))
  {
    dropped := [];
    var steps := entry.completedSteps;
    for i := 0 to |steps|
      invariant forall s :: s in dropped <==> s in steps[..i] && s in Unproved(entry, status)
      invariant NoDup(steps) ==> NoDup(dropped)
    {
      var s := steps[i];
      assert NoDup(steps) ==> s !in steps[..i];
      if Hashed(entry, s) {
        continue;
      }
      if status in SatisfiedBy(s) {
        continue;
      }
      dropped := dropped + [s];
    }
  }

  // ---- Repair is exact and stable -------------------------------------------------------------

  /** A status that proves a step keeps proving it however the round moves on. */
  lemma ProofsPersist(step: KeeperStep, x: RoundTypes.Status, y: RoundTypes.Status)
    requires Progress.Reaches(x, y) && x in SatisfiedBy(step)
    ensures y in SatisfiedBy(step)
  {
  }

  /** The status in which the contract accepts the call of a step, if only one. */
  function DoneFrom(step: KeeperStep): RoundTypes.Status
    requires step in {OpenReveal, Clear, Settle}
  {
    match step
    case OpenReveal => RoundTypes.Open
    case Clear => RoundTypes.Revealing
    case Settle => RoundTypes.Cleared
  }

  /**
   * What a proving status proves: of opening, clearing and settling, that the call can never be accepted again; of
   * revealing, that the window was opened or the round ended; of voiding, that the round is voided.
   */
  lemma ProvesExactly(step: KeeperStep, status: RoundTypes.Status)
    ensures status in SatisfiedBy(step) <==>
            match step
            case Reveal => status != RoundTypes.Open
            case Void => status == RoundTypes.Voided
            case _ => forall later :: Progress.Reaches(status, later) ==> later != DoneFrom(step)
  {
    if step in {OpenReveal, Clear, Settle} && status !in SatisfiedBy(step) {
      assert Progress.Arrow(RoundTypes.Open, RoundTypes.Revealing);
      assert Progress.Arrow(RoundTypes.Revealing, RoundTypes.Cleared);
      assert Progress.Reaches(status, DoneFrom(step));
    }
  }

  /** Reconciling keeps exactly the steps with a hash or proved by the status. */
  lemma ReconcileIsExact(e: Entry, status: RoundTypes.Status)
    ensures var kept := Pruned(e, Unproved(e, status));
            && (EntryOk(e) ==> EntryOk(kept)) && (TailOk(e) ==> TailOk(kept))
            && (forall s :: s in kept.completedSteps <==>
                  s in e.completedSteps && (Hashed(e, s) || status in SatisfiedBy(s)))
            && (forall s :: Hashed(kept, s) <==> Hashed(e, s))
  {
    hide Pruned, EntryOk, TailOk;
    PrunedIsExact(e, Unproved(e, status));
  }

  /** Reconciling again, at this status or any the round can later reach, drops nothing more. */
  lemma ReconcileIsStable(e: Entry, status: RoundTypes.Status, later: RoundTypes.Status)
    requires Progress.Reaches(status, later)
    ensures var kept := Pruned(e, Unproved(e, status)); Unproved(kept, later) == {} && Pruned(kept, {}) == kept
  {
    hide Pruned, EntryOk, TailOk, Hashed;
    ReconcileIsExact(e, status);
    var kept := Pruned(e, Unproved(e, status));
    PrunedNothing(kept);
    forall s | s in kept.completedSteps
      ensures s !in Unproved(kept, later)
    {
      if !Hashed(kept, s) {
        ProofsPersist(s, status, later);
      }
    }
  }

  /** Hash verification removes exactly the recorded steps whose lookup came back failed or missing. */
  lemma VerifyIsExact(id: nat, e: Entry, verify: Verifier)
    ensures var kept := Pruned(e, Refuted(id, e, verify));
            && (EntryOk(e) ==> EntryOk(kept)) && (TailOk(e) ==> TailOk(kept))
            && (forall s :: s in kept.completedSteps <==>
                  s in e.completedSteps
                  && (s in e.stepHashes ==> verify(id, s, e.stepHashes[s]) in {Confirmed, Unreachable}))
  {
    hide Pruned, EntryOk, TailOk;
    PrunedIsExact(e, Refuted(id, e, verify));
  }
}
