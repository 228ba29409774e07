/** `keepRound`: open the window, reveal every bid, record what is proved done. */
module KeeperReveal {
  import opened Prelude
  import opened RoundTypes
  import Spec = RoundSpec
  import opened RoundInvariant
  import opened Runs
  import Commitment
  import Acceptance
  import opened Progress
  import opened Interleaving
  import opened KeeperCursor
  import opened KeeperBidders
  import Checkpoint

  // ---- keepRound ------------------------------------------------------------------------------------

  /** What the beacon API gave the keeper: `valid` is the chain's verdict on a served signature. */
  datatype Beacon = NotPublished | NotServed | Served(valid: bool)

  datatype SealRead = Absent | Unreadable | Opened(value: i128, nonce: Bytes32)

  datatype Reason =
    | CheckpointComplete | StateReadFailed | AlreadyRevealedBefore | SealAbsent | DecryptFailed
    | RevealedByRace | CorruptSeal | WindowClosed

  datatype Skip = Skip(bidder: Option<Address>, reason: Reason)

  datatype KeeperResult = KeeperResult(
    finalStatus: Status,
    openedReveal: bool,
    revealed: seq<Address>,
    skipped: seq<Skip>)

  datatype Outcome = Revealed | Skipped(reason: Reason)

  /** Skip reasons that still mean the bid is revealed on chain. */
  predicate MeansRevealed(reason: Reason) {
    reason == AlreadyRevealedBefore || reason == RevealedByRace
  }

  /** The seal opens to the bid the bidder committed to. */
  ghost predicate Opens(s: State, rid: nat, bidder: Address, seal: SealRead)
    requires rid in s.cells && bidder in s.cells[rid].bids
  {
    seal.Opened? && s.sha(Commitment.BidPreimage(seal.value, seal.nonce)) == s.cells[rid].bids[bidder].commitment
  }

  /** Nothing is left for the keeper to do for this bidder. */
  ghost predicate Answered(s: State, rid: nat, bidder: Address, seal: SealRead) {
    && rid in s.cells && bidder in s.cells[rid].bids
    && (IsRevealed(s, rid, bidder) || !Opens(s, rid, bidder, seal))
  }

  /** A sealed bid above its own escrow: it opens, but the contract refuses to reveal it. */
  ghost predicate Overbid(s: State, rid: nat, bidder: Address, seal: SealRead) {
    && rid in s.cells && bidder in s.cells[rid].bids && !IsRevealed(s, rid, bidder)
    && Opens(s, rid, bidder, seal) && seal.value > s.cells[rid].bids[bidder].escrow
  }

  lemma AnsweredFollows(s: State, t: State, rid: nat, bidder: Address, seal: SealRead)
    requires Inv(s) && Follows(s, t) && Answered(s, rid, bidder, seal) && s.cells[rid].round.status != Open
    ensures Answered(t, rid, bidder, seal)
  {
    hide Inv, Follows, Reaches;
    FollowsFacts(s, t);
  }

  lemma RevealAccepted(s: State, rid: nat, bidder: Address, v: i128, n: Bytes32)
    requires Spec.Reveal(s, rid, bidder, v, n).Ok?
    ensures IsRevealed(Spec.Reveal(s, rid, bidder, v, n).value, rid, bidder)
  {
  }

  ghost predicate InWindow(s: State, rid: nat, bidder: Address) {
    && rid in s.cells && s.cells[rid].round.status == Revealing && s.now <= s.cells[rid].round.revealDeadline
    && bidder in s.cells[rid].bids
  }

  ghost predicate Late(s: State, rid: nat) {
    rid in s.cells && s.now > s.cells[rid].round.revealDeadline
  }

  lemma RevealVerdict(s: State, rid: nat, bidder: Address, v: i128, n: Bytes32)
    requires Inv(s) && InWindow(s, rid, bidder) && s.cells[rid].bids[bidder].revealedValue == None
    ensures var r := Spec.Reveal(s, rid, bidder, v, n); var b := s.cells[rid].bids[bidder];
            if s.sha(Commitment.BidPreimage(v, n)) != b.commitment then r == Err(HashMismatch)
            else if v > b.escrow then r == Err(BidExceedsEscrow)
            else r.Ok?
  {
    GuardPasses(s, s.cells[rid]);
    hide Inv, RoundInv, Spec.ProveConserved, Spec.EnsureLedger;
  }

  lemma RevealElsewhere(s: State, rid: nat, bidder: Address, v: i128, n: Bytes32)
    requires !InWindow(s, rid, bidder) || s.cells[rid].bids[bidder].revealedValue.Some?
    ensures var r := Spec.Reveal(s, rid, bidder, v, n);
            && r.Err? && (r.error == AlreadyRevealed <==> InWindow(s, rid, bidder))
            && (InWindow(s, rid, bidder) || r.error != HashMismatch)
            && (r.error == RevealWindowClosed ==> Late(s, rid))
  {
    hide Spec.ProveConserved, Spec.EnsureLedger;
  }

  /** Why a reveal can be refused. */
  lemma RevealRefused(s: State, rid: nat, bidder: Address, v: i128, n: Bytes32)
    requires Inv(s) && Spec.Reveal(s, rid, bidder, v, n).Err?
    ensures var e := Spec.Reveal(s, rid, bidder, v, n).error;
            && (e == AlreadyRevealed ==> IsRevealed(s, rid, bidder))
            && (e == HashMismatch ==> ReasonTrue(s, rid, bidder, Opened(v, n), CorruptSeal))
            && (e == RevealWindowClosed ==> Late(s, rid))
            && (InWindow(s, rid, bidder) ==>
                  || e == AlreadyRevealed
                  || (e == HashMismatch && !Opens(s, rid, bidder, Opened(v, n)))
                  || (e == BidExceedsEscrow && Overbid(s, rid, bidder, Opened(v, n))))
  {
    hide Inv, Spec.Reveal;
    if InWindow(s, rid, bidder) && s.cells[rid].bids[bidder].revealedValue == None {
      RevealVerdict(s, rid, bidder, v, n);
    } else {
      RevealElsewhere(s, rid, bidder, v, n);
    }
  }

  lemma AttemptReveal(s: State, rid: nat, bidder: Address, v: i128, n: Bytes32)
    ensures Attempt(s, Call.Reveal(rid, bidder, v, n)) == Spec.Reveal(s, rid, bidder, v, n)
  {
  }

  /** The window stayed open for the keeper from `s` to `t`, and no request of its was lost. */
  ghost predicate Unobstructed(chain: Chain, s: State, t: State, rid: nat) {
    chain.AlwaysUp() && Live(s, rid) && t.now <= s.cells[rid].round.revealDeadline
  }

  lemma StaysRevealing(s: State, t: State, rid: nat)
    requires Inv(s) && Follows(s, t) && rid in s.cells && s.cells[rid].round.status == Revealing
    requires t.now <= s.cells[rid].round.revealDeadline
    ensures rid in t.cells && t.cells[rid].round.status == Revealing
    ensures t.cells[rid].round.revealDeadline == s.cells[rid].round.revealDeadline
    ensures forall b :: b in s.cells[rid].bids ==> InWindow(t, rid, b)
  {
    hide Inv, Follows;
    FollowsStaysLive(s, t, rid);
    FollowsFacts(s, t);
  }

  /** The reason given for skipping a bidder is true of the chain, or of the bidder's seal. */
  ghost predicate ReasonTrue(s: State, rid: nat, bidder: Address, seal: SealRead, reason: Reason) {
    match reason
    case CheckpointComplete => false
    case StateReadFailed => true
    case AlreadyRevealedBefore => IsRevealed(s, rid, bidder)
    case SealAbsent => seal.Absent?
    case DecryptFailed => seal.Unreadable?
    case RevealedByRace => IsRevealed(s, rid, bidder)
    case CorruptSeal =>
      rid in s.cells && s.cells[rid].round.status != Open && bidder in s.cells[rid].bids && !Opens(s, rid, bidder, seal)
    case WindowClosed => Late(s, rid)
  }

  lemma ReasonTrueFollows(s: State, t: State, rid: nat, bidder: Address, seal: SealRead, reason: Reason)
    requires Inv(s) && Follows(s, t) && ReasonTrue(s, rid, bidder, seal, reason)
    ensures ReasonTrue(t, rid, bidder, seal, reason)
  {
    hide Inv, Follows;
    FollowsFacts(s, t);
    if IsRevealed(s, rid, bidder) {
      RevealedFollows(s, t, rid, bidder);
    }
  }

  ghost predicate Indexed(s: State, rid: nat, bidder: Address) {
    rid in s.cells && bidder in s.cells[rid].bids
  }

  lemma StaysIndexed(s: State, t: State, rid: nat, bidder: Address)
    requires Inv(s) && Follows(s, t)
    ensures Inv(t) && (Indexed(s, rid, bidder) ==> Indexed(t, rid, bidder))
  {
    hide Inv, Follows, Reaches;
    FollowsFacts(s, t);
  }

  /** Read of a refusal: revealed already, or not the committed bid, or an overbid. */
  lemma RevealOutcome(s: State, t: State, rid: nat, bidder: Address, v: i128, n: Bytes32)
    requires Inv(s) && Follows(s, t) && Attempt(t, Call.Reveal(rid, bidder, v, n)).Err?
    ensures var e := Attempt(t, Call.Reveal(rid, bidder, v, n)).error;
            && (e == AlreadyRevealed ==> IsRevealed(t, rid, bidder))
            && (e == HashMismatch ==> ReasonTrue(t, rid, bidder, Opened(v, n), CorruptSeal))
            && (e == RevealWindowClosed ==> Late(t, rid))
            && (InWindow(s, rid, bidder) && t.now <= s.cells[rid].round.revealDeadline ==>
                  || ((e == AlreadyRevealed || e == HashMismatch) && Answered(t, rid, bidder, Opened(v, n)))
                  || (e == BidExceedsEscrow && Overbid(t, rid, bidder, Opened(v, n))))
  {
    hide Inv, Follows, Attempt, Spec.Reveal, Opens;
    StaysIndexed(s, t, rid, bidder);
    AttemptReveal(t, rid, bidder, v, n);
    RevealRefused(t, rid, bidder, v, n);
    if InWindow(s, rid, bidder) && t.now <= s.cells[rid].round.revealDeadline {
      StaysRevealing(s, t, rid);
    }
  }

  /** Why the reveal of one bidder throws: others ended the window, or the bid is above its escrow. */
  ghost predicate BidThrows(s: State, rid: nat, bidder: Address, seal: SealRead, f: Fault) {
    && f.Refused? && rid in s.cells
    && match s.cells[rid].round.status
       case Open => false
       case Revealing =>
         f.error == BidExceedsEscrow && Overbid(s, rid, bidder, seal) && s.now <= s.cells[rid].round.revealDeadline
       case Cleared => f.error == RevealNotOpen
       case Settled => f.error == AlreadySettled
       case Voided => f.error == RoundVoided
  }

  /** The refusals of `reveal` that leave the pass nothing to do for this bidder. */
  predicate RevealTolerates(f: Fault) {
    Matches(f, {AlreadyRevealed, HashMismatch, RevealWindowClosed})
  }

  lemma RevealThrows(s: State, rid: nat, bidder: Address, v: i128, n: Bytes32)
    requires Inv(s) && PastOpen(s, rid) && Indexed(s, rid, bidder) && Spec.Reveal(s, rid, bidder, v, n).Err?
    ensures var f := Refused(Spec.Reveal(s, rid, bidder, v, n).error);
            RevealTolerates(f) || BidThrows(s, rid, bidder, Opened(v, n), f)
  {
    if InWindow(s, rid, bidder) {
      RevealRefused(s, rid, bidder, v, n);
    } else {
      RevealTooLate(s, rid, bidder, v, n);
    }
    hide Inv, Spec.Reveal, Overbid, Opens;
  }

  lemma RevealTooLate(s: State, rid: nat, bidder: Address, v: i128, n: Bytes32)
    requires PastOpen(s, rid) && Indexed(s, rid, bidder) && !InWindow(s, rid, bidder)
    ensures var r := Spec.Reveal(s, rid, bidder, v, n);
            && r.Err? && (RevealTolerates(Refused(r.error)) <==> HasStatus(s, rid, {Revealing}))
            && (RevealTolerates(Refused(r.error)) || BidThrows(s, rid, bidder, Opened(v, n), Refused(r.error)))
  {
    hide Spec.ProveConserved, Spec.EnsureLedger;
  }

  /** The states on which revealing this seal throws. */
  ghost predicate RevealFails(s: State, rid: nat, bidder: Address, seal: SealRead) {
    || HasStatus(s, rid, {Cleared, Settled, Voided})
    || (HasStatus(s, rid, {Revealing}) && !Late(s, rid) && Overbid(s, rid, bidder, seal))
  }

  lemma RevealFailsIff(s: State, rid: nat, bidder: Address, v: i128, n: Bytes32)
    requires Inv(s) && PastOpen(s, rid) && Indexed(s, rid, bidder)
    ensures var r := Spec.Reveal(s, rid, bidder, v, n);
            (r.Err? && !RevealTolerates(Refused(r.error))) <==> RevealFails(s, rid, bidder, Opened(v, n))
  {
    hide Inv, Spec.Reveal;
    if InWindow(s, rid, bidder) && s.cells[rid].bids[bidder].revealedValue == None {
      RevealVerdict(s, rid, bidder, v, n);
    } else {
      RevealElsewhere(s, rid, bidder, v, n);
      if !InWindow(s, rid, bidder) {
        RevealTooLate(s, rid, bidder, v, n);
      }
    }
  }

  /** What became of submitting this opened seal, told from the state `b` the submission met. */
  ghost predicate SubmitSays(b: State, rid: nat, bidder: Address, v: i128, n: Bytes32, r: Result<Outcome, Fault>) {
    && (r == Ok(Revealed) <==> Acceptance.Showable(b, rid, bidder, v, n))
    && (r == Ok(Skipped(RevealedByRace)) <==> InWindow(b, rid, bidder) && IsRevealed(b, rid, bidder))
    && (r == Ok(Skipped(CorruptSeal)) <==>
          InWindow(b, rid, bidder) && !IsRevealed(b, rid, bidder) && !Opens(b, rid, bidder, Opened(v, n)))
    && (r == Ok(Skipped(WindowClosed)) <==> HasStatus(b, rid, {Revealing}) && Late(b, rid))
    && r != Ok(Skipped(StateReadFailed)) && r != Ok(Skipped(AlreadyRevealedBefore))
    && r != Ok(Skipped(SealAbsent)) && r != Ok(Skipped(DecryptFailed)) && r != Ok(Skipped(CheckpointComplete))
  }

  /** What became of one bidder, told from `m`, in which its bid was read, and `b`, which its reveal met. */
  ghost predicate OutcomeSays(m: State, b: State, rid: nat, bidder: Address, seal: SealRead,
                              r: Result<Outcome, Fault>)
  {
    if !Indexed(m, rid, bidder) then r == Ok(Skipped(StateReadFailed))
    else if IsRevealed(m, rid, bidder) then r == Ok(Skipped(AlreadyRevealedBefore))
    else
      match seal
      case Absent => r == Ok(Skipped(SealAbsent))
      case Unreadable => r == Ok(Skipped(DecryptFailed))
      case Opened(v, n) => SubmitSays(b, rid, bidder, v, n, r)
  }

  lemma RevealAnswers(s: State, rid: nat, bidder: Address, v: i128, n: Bytes32)
    requires Inv(s)
    ensures var r := Spec.Reveal(s, rid, bidder, v, n);
            && (r.Ok? <==> Acceptance.Showable(s, rid, bidder, v, n))
            && (r == Err(AlreadyRevealed) <==> InWindow(s, rid, bidder) && IsRevealed(s, rid, bidder))
            && (r == Err(HashMismatch) <==>
                  InWindow(s, rid, bidder) && !IsRevealed(s, rid, bidder) && !Opens(s, rid, bidder, Opened(v, n)))
            && (r == Err(RevealWindowClosed) <==> HasStatus(s, rid, {Revealing}) && Late(s, rid))
  {
    hide Inv, Spec.Reveal, Commitment.BidPreimage;
    Acceptance.RevealChecks(s, rid, bidder, v, n);
    ClosedIff(s, rid, bidder, v, n);
    if InWindow(s, rid, bidder) && s.cells[rid].bids[bidder].revealedValue == None {
      RevealVerdict(s, rid, bidder, v, n);
    } else {
      RevealElsewhere(s, rid, bidder, v, n);
    }
  }

  lemma ClosedIff(s: State, rid: nat, bidder: Address, v: i128, n: Bytes32)
    requires Inv(s)
    ensures Spec.Reveal(s, rid, bidder, v, n) == Err(RevealWindowClosed) <==>
              HasStatus(s, rid, {Revealing}) && Late(s, rid)
  {
    hide Inv, Spec.EnsureLedger, Spec.ProveConserved, LedgerOk, Commitment.BidPreimage;
    if rid in s.cells {
      Acceptance.GuardAccepts(s, rid);
    }
  }

  lemma PastOpenIndexed(s: State, t: State, rid: nat, bidder: Address)
    requires Inv(s) && Follows(s, t) && PastOpen(s, rid) && Indexed(s, rid, bidder)
    ensures Inv(t) && PastOpen(t, rid) && Indexed(t, rid, bidder)
  {
    hide Inv, Follows;
    FollowsFacts(s, t);
  }

  lemma RevealThrowsLater(s: State, t: State, rid: nat, bidder: Address, v: i128, n: Bytes32)
    requires Inv(s) && Follows(s, t) && Attempt(t, Call.Reveal(rid, bidder, v, n)).Err?
    ensures var f := Refused(Attempt(t, Call.Reveal(rid, bidder, v, n)).error);
            PastOpen(s, rid) && Indexed(s, rid, bidder) ==>
              && (RevealTolerates(f) || BidThrows(t, rid, bidder, Opened(v, n), f))
              && (!RevealTolerates(f) <==> RevealFails(t, rid, bidder, Opened(v, n)))
  {
    hide Inv, Follows, Attempt, Spec.Reveal, BidThrows, RevealFails;
    AttemptReveal(t, rid, bidder, v, n);
    if PastOpen(s, rid) && Indexed(s, rid, bidder) {
      PastOpenIndexed(s, t, rid, bidder);
      RevealThrows(t, rid, bidder, v, n);
      RevealFailsIff(t, rid, bidder, v, n);
    }
  }

  lemma AcceptedDoesNotFail(s: State, t: State, rid: nat, bidder: Address, v: i128, n: Bytes32)
    requires Inv(s) && Follows(s, t) && Attempt(t, Call.Reveal(rid, bidder, v, n)).Ok?
    ensures PastOpen(s, rid) && Indexed(s, rid, bidder) ==> !RevealFails(t, rid, bidder, Opened(v, n))
  {
    hide Inv, Follows, Attempt, Spec.Reveal, RevealFails;
    AttemptReveal(t, rid, bidder, v, n);
    if PastOpen(s, rid) && Indexed(s, rid, bidder) {
      PastOpenIndexed(s, t, rid, bidder);
      RevealFailsIff(t, rid, bidder, v, n);
    }
  }

  ghost predicate EachIndexed(s: State, rid: nat, bidders: seq<Address>) {
    PastOpen(s, rid) && forall b :: b in bidders ==> Indexed(s, rid, b)
  }

  lemma EachStaysIndexed(s: State, t: State, rid: nat, bidders: seq<Address>)
    requires Inv(s) && Follows(s, t) && EachIndexed(s, rid, bidders)
    ensures EachIndexed(t, rid, bidders)
  {
    hide Inv, Follows;
    FollowsFacts(s, t);
  }

  lemma InvIndexed(s: State, rid: nat)
    requires Inv(s) && PastOpen(s, rid)
    ensures EachIndexed(s, rid, s.cells[rid].round.bidders)
  {
    assert IndexMatches(s.cells[rid]);
  }

  ghost predicate SomeThrows(s: State, rid: nat, bidders: seq<Address>, seals: Address -> SealRead, f: Fault) {
    exists b :: b in bidders && BidThrows(s, rid, b, seals(b), f)
  }

  /** Reveal one bidder: read its state, open its seal, submit. */
  method RevealOne(chain: Chain, rid: nat, bidder: Address, seal: SealRead) returns (r: Result<Outcome, Fault>)
    requires Inv(chain.state)
    modifies chain
    ensures Follows(old(chain.state), chain.state)
    ensures r.Ok? && (r.value.Revealed? || MeansRevealed(r.value.reason)) ==> IsRevealed(chain.state, rid, bidder)
    ensures r.Ok? && r.value.Skipped? ==> ReasonTrue(chain.state, rid, bidder, seal, r.value.reason)
    ensures Unobstructed(chain, old(chain.state), chain.state, rid)
            && InWindow(old(chain.state), rid, bidder) ==>
              && (r.Err? ==> r.error == Refused(BidExceedsEscrow) && Overbid(chain.state, rid, bidder, seal))
              && (r.Ok? ==> Answered(chain.state, rid, bidder, seal))
    ensures Kept(chain.turns, old(chain.asked), chain.asked, old(chain.state), chain.state, rid)
    ensures chain.AlwaysUp() && PastOpen(old(chain.state), rid) && Indexed(old(chain.state), rid, bidder) && r.Err? ==>
              BidThrows(chain.state, rid, bidder, seal, r.error)
    ensures chain.AlwaysUp() && PastOpen(old(chain.state), rid) && Indexed(old(chain.state), rid, bidder) ==>
              (r.Err? <==>
                && !IsRevealed(old(chain.First()), rid, bidder) && seal.Opened?
                && RevealFails(old(chain.Third()), rid, bidder, seal))
    ensures chain.AlwaysUp() ==> OutcomeSays(old(chain.First()), old(chain.Third()), rid, bidder, seal, r)
    ensures chain.landed == old(chain.landed) + if r == Ok(Revealed) then RevealCall(rid, bidder, seal) else []
    ensures r == Ok(Revealed) ==> seal.Opened?
  {
    hide SubmitSays;
    hide Inv, Run, Follows, Overbid, Opens, Kept, BidThrows, RevealFails, Evolves, Reaches;
    ghost var start, from := chain.state, chain.asked;
    KeptTurn(chain.turns, from, start, rid);
    var read := chain.GetBidState(rid, bidder);
    ghost var mid := chain.state;
    StaysIndexed(start, mid, rid, bidder);
    if PastOpen(start, rid) && Indexed(start, rid, bidder) {
      PastOpenIndexed(start, mid, rid, bidder);
    }
    if read.Err? {
      return Ok(Skipped(StateReadFailed));
    }
    if read.value.revealedValue.Some? {
      return Ok(Skipped(AlreadyRevealedBefore));
    }
    r := RevealSealed(chain, rid, bidder, seal);
    FollowsTrans(start, mid, chain.state);
    KeptTrans(chain.turns, from, from + 1, chain.asked, start, mid, chain.state, rid);
    if InWindow(start, rid, bidder) && Unobstructed(chain, start, chain.state, rid) {
      SoundFollows(mid, chain.state);
      StaysRevealing(start, mid, rid);
    }
  }

  /** Open the seal of a bidder read as unrevealed, and submit. */
  method RevealSealed(chain: Chain, rid: nat, bidder: Address, seal: SealRead)
    returns (r: Result<Outcome, Fault>)
    requires Inv(chain.state)
    modifies chain
    ensures Follows(old(chain.state), chain.state)
    ensures r.Ok? && (r.value.Revealed? || MeansRevealed(r.value.reason)) ==> IsRevealed(chain.state, rid, bidder)
    ensures r.Ok? && r.value.Skipped? ==> ReasonTrue(chain.state, rid, bidder, seal, r.value.reason)
    ensures Unobstructed(chain, old(chain.state), chain.state, rid)
            && InWindow(old(chain.state), rid, bidder) ==>
              && (r.Err? ==> r.error == Refused(BidExceedsEscrow) && Overbid(chain.state, rid, bidder, seal))
              && (r.Ok? ==> Answered(chain.state, rid, bidder, seal))
    ensures Kept(chain.turns, old(chain.asked), chain.asked, old(chain.state), chain.state, rid)
    ensures chain.AlwaysUp() && PastOpen(old(chain.state), rid) && Indexed(old(chain.state), rid, bidder) && r.Err? ==>
              BidThrows(chain.state, rid, bidder, seal, r.error)
    ensures chain.AlwaysUp() && PastOpen(old(chain.state), rid) && Indexed(old(chain.state), rid, bidder) ==>
              (r.Err? <==> seal.Opened? && RevealFails(old(chain.Second()), rid, bidder, seal))
    ensures chain.AlwaysUp() ==>
              match seal
              case Absent => r == Ok(Skipped(SealAbsent))
              case Unreadable => r == Ok(Skipped(DecryptFailed))
              case Opened(v, n) => SubmitSays(old(chain.Second()), rid, bidder, v, n, r)
    ensures chain.landed == old(chain.landed) + if r == Ok(Revealed) then RevealCall(rid, bidder, seal) else []
    ensures r == Ok(Revealed) ==> seal.Opened?
  {
    hide SubmitSays;
    hide Inv, Run, Follows, Overbid, Kept, BidThrows, RevealFails, Evolves, Reaches;
    ghost var start, from := chain.state, chain.asked;
    KeptTurn(chain.turns, from, start, rid);
    var up := chain.Reach();
    ghost var mid := chain.state;
    StaysIndexed(start, mid, rid, bidder);
    if !up {
      return Err(Offline);
    }
    if seal.Absent? {
      return Ok(Skipped(SealAbsent));
    }
    if seal.Unreadable? {
      return Ok(Skipped(DecryptFailed));
    }
    if PastOpen(start, rid) && Indexed(start, rid, bidder) {
      PastOpenIndexed(start, mid, rid, bidder);
    }
    r := SubmitReveal(chain, rid, bidder, seal.value, seal.nonce);
    FollowsTrans(start, mid, chain.state);
    KeptTrans(chain.turns, from, from + 1, chain.asked, start, mid, chain.state, rid);
    if InWindow(start, rid, bidder) && Unobstructed(chain, start, chain.state, rid) {
      SoundFollows(mid, chain.state);
      StaysRevealing(start, mid, rid);
    }
  }

  method SubmitReveal(chain: Chain, rid: nat, bidder: Address, value: i128,
          nonce: Bytes32) returns (r: Result<Outcome, Fault>)
    requires Inv(chain.state)
    modifies chain
    ensures Follows(old(chain.state), chain.state)
    ensures r.Ok? && (r.value.Revealed? || MeansRevealed(r.value.reason)) ==> IsRevealed(chain.state, rid, bidder)
    ensures r.Ok? && r.value.Skipped? ==> ReasonTrue(chain.state, rid, bidder, Opened(value, nonce), r.value.reason)
    ensures Unobstructed(chain, old(chain.state), chain.state, rid)
            && InWindow(old(chain.state), rid, bidder) ==>
              && (r.Err? ==>
                    r.error == Refused(BidExceedsEscrow) && Overbid(chain.state, rid, bidder, Opened(value, nonce)))
              && (r.Ok? ==> Answered(chain.state, rid, bidder, Opened(value, nonce)))
    ensures Kept(chain.turns, old(chain.asked), chain.asked, old(chain.state), chain.state, rid)
    ensures chain.AlwaysUp() && PastOpen(old(chain.state), rid) && Indexed(old(chain.state), rid, bidder) && r.Err? ==>
              BidThrows(chain.state, rid, bidder, Opened(value, nonce), r.error)
    ensures chain.AlwaysUp() && PastOpen(old(chain.state), rid) && Indexed(old(chain.state), rid, bidder) ==>
              (r.Err? <==> RevealFails(old(chain.First()), rid, bidder, Opened(value, nonce)))
    ensures chain.AlwaysUp() ==> SubmitSays(old(chain.First()), rid, bidder, value, nonce, r)
    ensures chain.landed ==
            old(chain.landed) + if r == Ok(Revealed) then [Call.Reveal(rid, bidder, value, nonce)] else []
  {
    hide Inv, Run, Follows, Attempt, Overbid, Opens, Spec.Reveal, OthersMoved, BidThrows;
    hide PastOpen, Indexed, RevealFails;
    ghost var start, from := chain.state, chain.asked;
    ghost var before: State;
    var sent: Result<(), Fault>;
    sent, before := chain.Submit(Call.Reveal(rid, bidder, value, nonce));
    AttemptReveal(before, rid, bidder, value, nonce);
    KeptTurn(chain.turns, from, start, rid);
    SoundFollows(start, before);
    RevealAnswers(before, rid, bidder, value, nonce);
    hide Acceptance.Showable, InWindow, IsRevealed, HasStatus, Late;
    if sent.Ok? {
      RevealAccepted(before, rid, bidder, value, nonce);
      AcceptedDoesNotFail(start, before, rid, bidder, value, nonce);
      RevealKeepsStatus(before, rid, bidder, value, nonce);
      return Ok(Revealed);
    }
    if sent.error.Refused? {
      RevealOutcome(start, before, rid, bidder, value, nonce);
      RevealThrowsLater(start, before, rid, bidder, value, nonce);
    }
    if Matches(sent.error, {AlreadyRevealed}) {
      r := Ok(Skipped(RevealedByRace));
    } else if Matches(sent.error, {HashMismatch}) {
      r := Ok(Skipped(CorruptSeal));
    } else if Matches(sent.error, {RevealWindowClosed}) {
      r := Ok(Skipped(WindowClosed));
    } else {
      r := Err(sent.error);
    }
  }

  ghost predicate Complete(skipped: seq<Skip>) {
    forall x :: x in skipped ==> MeansRevealed(x.reason)
  }

  /** `result.skipped.every(reason means revealed)`. */
  method Every(skipped: seq<Skip>) returns (r: bool)
    ensures r == Complete(skipped)
  {
    for i := 0 to |skipped|
      invariant forall x :: x in skipped[..i] ==> MeansRevealed(x.reason)
    {
      if !MeansRevealed(skipped[i].reason) {
        return false;
      }
    }
    r := true;
  }

  ghost predicate EachRevealed(s: State, rid: nat, bidders: seq<Address>) {
    forall b :: b in bidders ==> IsRevealed(s, rid, b)
  }

  ghost predicate EachAnswered(s: State, rid: nat, bidders: seq<Address>, seals: Address -> SealRead) {
    forall b :: b in bidders ==> Answered(s, rid, b, seals(b))
  }

  ghost predicate SomeOverbid(s: State, rid: nat, bidders: seq<Address>, seals: Address -> SealRead) {
    exists b :: b in bidders && Overbid(s, rid, b, seals(b))
  }

  ghost predicate EachInWindow(s: State, rid: nat, bidders: seq<Address>) {
    forall b :: b in bidders ==> InWindow(s, rid, b)
  }

  lemma EachRevealedFollows(s: State, t: State, rid: nat, bidders: seq<Address>)
    requires Inv(s) && Follows(s, t) && EachRevealed(s, rid, bidders)
    ensures EachRevealed(t, rid, bidders)
  {
    hide Inv, Follows, IsRevealed;
    forall b | b in bidders
      ensures IsRevealed(t, rid, b)
    {
      RevealedFollows(s, t, rid, b);
    }
  }

  lemma EachAnsweredFollows(s: State, t: State, rid: nat, bidders: seq<Address>, seals: Address -> SealRead)
    requires Inv(s) && Follows(s, t) && EachAnswered(s, rid, bidders, seals)
    requires rid in s.cells && s.cells[rid].round.status != Open
    ensures EachAnswered(t, rid, bidders, seals)
  {
    hide Inv, Follows, Answered;
    forall b | b in bidders
      ensures Answered(t, rid, b, seals(b))
    {
      AnsweredFollows(s, t, rid, b, seals(b));
    }
  }

  lemma EachStaysInWindow(s: State, t: State, rid: nat, bidders: seq<Address>)
    requires Inv(s) && Follows(s, t) && EachInWindow(s, rid, bidders) && bidders != []
    requires rid in s.cells && t.now <= s.cells[rid].round.revealDeadline
    ensures EachInWindow(t, rid, bidders)
    ensures rid in t.cells && t.cells[rid].round.status == Revealing
    ensures t.cells[rid].round.revealDeadline == s.cells[rid].round.revealDeadline
  {
    hide Inv, Follows;
    assert InWindow(s, rid, bidders[0]);
    StaysRevealing(s, t, rid);
  }

  ghost predicate SkipsTrue(s: State, rid: nat, seals: Address -> SealRead, skipped: seq<Skip>) {
    forall x :: x in skipped ==> x.bidder.Some? && ReasonTrue(s, rid, x.bidder.value, seals(x.bidder.value), x.reason)
  }

  lemma SkipsTrueFollows(s: State, t: State, rid: nat, seals: Address -> SealRead, skipped: seq<Skip>)
    requires Inv(s) && Follows(s, t) && SkipsTrue(s, rid, seals, skipped)
    ensures SkipsTrue(t, rid, seals, skipped)
  {
    hide Inv, Follows, ReasonTrue;
    forall x | x in skipped
      ensures x.bidder.Some? && ReasonTrue(t, rid, x.bidder.value, seals(x.bidder.value), x.reason)
    {
      ReasonTrueFollows(s, t, rid, x.bidder.value, seals(x.bidder.value), x.reason);
    }
  }

  /** The reported skips: either the cursor already records the reveals, or each one is true. */
  ghost predicate ReportTrue(s: State, rid: nat, seals: Address -> SealRead, skipped: seq<Skip>) {
    skipped == [Skip(None, CheckpointComplete)] || SkipsTrue(s, rid, seals, skipped)
  }

  /** The reveals of these bidders, in order, each with what its seal opened to. */
  function RevealCalls(rid: nat, bidders: seq<Address>, seals: Address -> SealRead): seq<Call> {
    if bidders == [] then []
    else
      RevealCalls(rid, bidders[..|bidders| - 1], seals)
      + RevealCall(rid, bidders[|bidders| - 1], seals(bidders[|bidders| - 1]))
  }

  function RevealCall(rid: nat, bidder: Address, seal: SealRead): seq<Call> {
    if seal.Opened? then [Call.Reveal(rid, bidder, seal.value, seal.nonce)] else []
  }

  /** Every bidder is reported once, as revealed or as skipped, each list in the order of the index. */
  ghost predicate Merges(bidders: seq<Address>, revealed: seq<Address>, skipped: seq<Skip>)
    decreases |bidders|
  {
    if bidders == [] then revealed == [] && skipped == []
    else
      var front, last := bidders[..|bidders| - 1], bidders[|bidders| - 1];
      || (revealed != [] && revealed[|revealed| - 1] == last && Merges(front, revealed[..|revealed| - 1], skipped))
      || (skipped != [] && skipped[|skipped| - 1].bidder == Some(last)
          && Merges(front, revealed, skipped[..|skipped| - 1]))
  }

  lemma MergesRevealed(bidders: seq<Address>, b: Address, revealed: seq<Address>, skipped: seq<Skip>)
    requires Merges(bidders, revealed, skipped)
    ensures Merges(bidders + [b], revealed + [b], skipped)
  {
    assert (bidders + [b])[..|bidders|] == bidders && (revealed + [b])[..|revealed|] == revealed;
  }

  lemma MergesSkipped(bidders: seq<Address>, b: Address, revealed: seq<Address>, skipped: seq<Skip>, reason: Reason)
    requires Merges(bidders, revealed, skipped)
    ensures Merges(bidders + [b], revealed, skipped + [Skip(Some(b), reason)])
  {
    var longer := skipped + [Skip(Some(b), reason)];
    assert (bidders + [b])[..|bidders|] == bidders && longer[..|skipped|] == skipped;
  }

  lemma RevealCallsSnoc(rid: nat, bidders: seq<Address>, b: Address, seals: Address -> SealRead)
    ensures RevealCalls(rid, bidders + [b], seals) == RevealCalls(rid, bidders, seals) + RevealCall(rid, b, seals(b))
  {
    assert (bidders + [b])[..|bidders|] == bidders;
  }

  /** A reveal phase either left everything to the cursor, or reports every bidder of the index once, in order. */
  ghost predicate Shaped(done: bool, bidders: seq<Address>, revealed: seq<Address>, skipped: seq<Skip>) {
    if done then revealed == [] && skipped == [Skip(None, CheckpointComplete)] else Merges(bidders, revealed, skipped)
  }

  /** Every bid of the index could be read. */
  ghost predicate AllRead(skipped: seq<Skip>) {
    forall x :: x in skipped ==> x.reason != StateReadFailed
  }

  ghost predicate EachReported(bidders: seq<Address>, revealed: seq<Address>, skipped: seq<Skip>) {
    forall b :: b in bidders ==> b in revealed || exists reason :: Skip(Some(b), reason) in skipped
  }

  /** The pass left no bid to reveal, as far as it can tell. */
  ghost predicate Swept(skipped: seq<Skip>) {
    Complete(skipped) || Skip(None, CheckpointComplete) in skipped
  }

  /** The reveal loop over the bidder index. */
  method RevealAll(chain: Chain, rid: nat, bidders: seq<Address>, seals: Address -> SealRead)
    returns (r: Result<(), Fault>, revealed: seq<Address>, skipped: seq<Skip>)
    requires Inv(chain.state)
    modifies chain
    ensures Follows(old(chain.state), chain.state)
    ensures EachRevealed(chain.state, rid, revealed) && ToSet(revealed) <= ToSet(bidders)
    ensures SkipsTrue(chain.state, rid, seals, skipped)
    ensures r.Ok? ==> EachReported(bidders, revealed, skipped)
    ensures r.Ok? && Complete(skipped) ==> EachRevealed(chain.state, rid, bidders)
    ensures Unobstructed(chain, old(chain.state), chain.state, rid) && EachInWindow(old(chain.state), rid, bidders) ==>
              && (r.Err? ==> r.error == Refused(BidExceedsEscrow) && SomeOverbid(chain.state, rid, bidders, seals))
              && (r.Ok? ==> EachAnswered(chain.state, rid, bidders, seals))
    ensures Kept(chain.turns, old(chain.asked), chain.asked, old(chain.state), chain.state, rid)
    ensures chain.AlwaysUp() && EachIndexed(old(chain.state), rid, bidders) && r.Err? ==>
              SomeThrows(chain.state, rid, bidders, seals, r.error)
    ensures chain.landed == old(chain.landed) + RevealCalls(rid, revealed, seals)
    ensures forall b :: b in revealed ==> seals(b).Opened?
    ensures r.Ok? ==> Merges(bidders, revealed, skipped)
    ensures chain.AlwaysUp() && EachIndexed(old(chain.state), rid, bidders) ==> AllRead(skipped)
  {
    hide OutcomeSays, RevealCall, RevealCalls, Run, Merges, EachRevealed, SkipsTrue, EachAnswered, EachIndexed, AllRead;
    hide EachInWindow, Unobstructed, SomeOverbid, SomeThrows, Complete, EachReported;
    hide Inv, Follows, IsRevealed, Answered, Overbid, InWindow, ReasonTrue, Kept, BidThrows, PastOpen, Indexed;
    revealed, skipped := [], [];
    ghost var start, from, sent := chain.state, chain.asked, chain.landed;
    KeptSelf(chain.turns, from, start, rid);
    FollowsSelf(start);
    NothingReported(start, rid, seals);
    for i := 0 to |bidders|
      invariant Inv(chain.state) && Follows(start, chain.state)
      invariant Kept(chain.turns, from, chain.asked, start, chain.state, rid)
      invariant EachRevealed(chain.state, rid, revealed) && SkipsTrue(chain.state, rid, seals, skipped)
      invariant Merges(bidders[..i], revealed, skipped) && forall b :: b in revealed ==> seals(b).Opened?
      invariant chain.landed == sent + RevealCalls(rid, revealed, seals)
      invariant chain.AlwaysUp() && EachIndexed(start, rid, bidders) ==> AllRead(skipped)
      invariant Unobstructed(chain, start, chain.state, rid) && EachInWindow(start, rid, bidders) ==>
                  EachAnswered(chain.state, rid, bidders[..i], seals)
    {
      ghost var mid, turn := chain.state, chain.asked;
      ghost var first, third := chain.First(), chain.Third();
      if EachIndexed(start, rid, bidders) {
        FirstIndexed(chain, start, rid, bidders, i);
      }
      var outcome := RevealOne(chain, rid, bidders[i], seals(bidders[i]));
      KeptTrans(chain.turns, from, turn, chain.asked, start, mid, chain.state, rid);
      FollowsTrans(start, mid, chain.state);
      SoundFollows(mid, chain.state);
      SkipsTrueFollows(mid, chain.state, rid, seals, skipped);
      EachRevealedFollows(mid, chain.state, rid, revealed);
      if Unobstructed(chain, start, chain.state, rid) && EachInWindow(start, rid, bidders) {
        UnobstructedTurn(chain, start, mid, rid, bidders, i);
        EachAnsweredFollows(mid, chain.state, rid, bidders[..i], seals);
        OneMoreAnswered(chain.state, rid, bidders, i, seals);
      }
      if outcome.Err? {
        r := Err(outcome.error);
        OneThrows(chain.state, rid, bidders, i, seals, outcome.error);
        MergesWithin(bidders[..i], revealed, skipped);
        return;
      }
      assert bidders[..i + 1] == bidders[..i] + [bidders[i]];
      if outcome.value.Revealed? {
        MergesRevealed(bidders[..i], bidders[i], revealed, skipped);
        RevealCallsSnoc(rid, revealed, bidders[i], seals);
        OneMoreRevealed(chain.state, rid, revealed, bidders[i]);
        revealed := revealed + [bidders[i]];
      } else {
        MergesSkipped(bidders[..i], bidders[i], revealed, skipped, outcome.value.reason);
        OneMoreSkip(chain.state, rid, seals, skipped, bidders[i], outcome.value.reason);
        ReadIsNotFailure(first, third, rid, bidders[i], seals(bidders[i]), outcome);
        skipped := skipped + [Skip(Some(bidders[i]), outcome.value.reason)];
      }
    }
    assert bidders[..|bidders|] == bidders;
    MergesReports(chain.state, rid, bidders, revealed, skipped, seals);
    MergesWithin(bidders, revealed, skipped);
    r := Ok(());
  }

  lemma NamesSomeone(s: State, rid: nat, seals: Address -> SealRead, skipped: seq<Skip>)
    ensures SkipsTrue(s, rid, seals, skipped) ==> Skip(None, CheckpointComplete) !in skipped
  {
    hide ReasonTrue;
  }

  lemma NothingReported(s: State, rid: nat, seals: Address -> SealRead)
    ensures EachRevealed(s, rid, []) && SkipsTrue(s, rid, seals, []) && Merges([], [], []) && AllRead([])
    ensures RevealCalls(rid, [], seals) == [] && EachAnswered(s, rid, [], seals)
            && AllRead([Skip(None, CheckpointComplete)])
  {
  }

  lemma UnobstructedTurn(chain: Chain, start: State, mid: State, rid: nat, bidders: seq<Address>, i: nat)
    requires Inv(start) && Follows(start, mid) && Inv(mid) && Follows(mid, chain.state) && i < |bidders|
    requires Unobstructed(chain, start, chain.state, rid) && EachInWindow(start, rid, bidders)
    ensures Unobstructed(chain, mid, chain.state, rid) && Unobstructed(chain, start, mid, rid)
    ensures InWindow(mid, rid, bidders[i]) && rid in mid.cells && mid.cells[rid].round.status == Revealing
  {
    hide Inv, Follows;
    SoundFollows(mid, chain.state);
    EachStaysInWindow(start, mid, rid, bidders);
  }

  lemma FirstIndexed(chain: Chain, start: State, rid: nat, bidders: seq<Address>, i: nat)
    requires Inv(start) && Inv(chain.state) && Follows(start, chain.state) && EachIndexed(start, rid, bidders)
    requires i < |bidders|
    ensures PastOpen(chain.state, rid) && Indexed(chain.state, rid, bidders[i])
    ensures Indexed(chain.First(), rid, bidders[i])
  {
    hide Inv, Run;
    EachStaysIndexed(start, chain.state, rid, bidders);
    FollowsRun(chain.state, chain.turns(chain.asked).others);
    EachStaysIndexed(chain.state, chain.First(), rid, bidders);
    hide Follows;
  }

  lemma OneMoreAnswered(s: State, rid: nat, bidders: seq<Address>, i: nat, seals: Address -> SealRead)
    requires i < |bidders| && EachAnswered(s, rid, bidders[..i], seals)
    ensures Answered(s, rid, bidders[i], seals(bidders[i])) ==> EachAnswered(s, rid, bidders[..i + 1], seals)
  {
    hide Answered;
    assert forall b :: b in bidders[..i + 1] ==> b in bidders[..i] || b == bidders[i];
  }

  lemma OneThrows(s: State, rid: nat, bidders: seq<Address>, i: nat, seals: Address -> SealRead, f: Fault)
    requires i < |bidders|
    ensures BidThrows(s, rid, bidders[i], seals(bidders[i]), f) ==> SomeThrows(s, rid, bidders, seals, f)
    ensures Overbid(s, rid, bidders[i], seals(bidders[i])) ==> SomeOverbid(s, rid, bidders, seals)
  {
    hide BidThrows, Overbid;
  }

  lemma OneMoreRevealed(s: State, rid: nat, revealed: seq<Address>, b: Address)
    requires EachRevealed(s, rid, revealed) && IsRevealed(s, rid, b)
    ensures EachRevealed(s, rid, revealed + [b])
  {
    hide IsRevealed;
  }

  lemma OneMoreSkip(s: State, rid: nat, seals: Address -> SealRead, skipped: seq<Skip>, b: Address, reason: Reason)
    requires SkipsTrue(s, rid, seals, skipped) && ReasonTrue(s, rid, b, seals(b), reason)
    ensures SkipsTrue(s, rid, seals, skipped + [Skip(Some(b), reason)])
    ensures AllRead(skipped) && reason != StateReadFailed ==> AllRead(skipped + [Skip(Some(b), reason)])
  {
    hide ReasonTrue;
  }

  lemma ReadIsNotFailure(m: State, b: State, rid: nat, bidder: Address, seal: SealRead, r: Result<Outcome, Fault>)
    ensures Indexed(m, rid, bidder) && OutcomeSays(m, b, rid, bidder, seal, r) ==> r != Ok(Skipped(StateReadFailed))
  {
  }

  lemma {:induction false} MergesWithin(bidders: seq<Address>, revealed: seq<Address>, skipped: seq<Skip>)
    requires Merges(bidders, revealed, skipped)
    ensures ToSet(revealed) <= ToSet(bidders) && EachReported(bidders, revealed, skipped)
    decreases |bidders|
  {
    if bidders != [] {
      var n, m, k := |bidders| - 1, |revealed| - 1, |skipped| - 1;
      var last := bidders[n];
      if m >= 0 && revealed[m] == last && Merges(bidders[..n], revealed[..m], skipped) {
        MergesWithin(bidders[..n], revealed[..m], skipped);
        assert revealed == revealed[..m] + [last];
        assert ToSet(revealed) == ToSet(revealed[..m]) + {last};
      } else {
        MergesWithin(bidders[..n], revealed, skipped[..k]);
        SkippedLast(bidders[..n], last, revealed, skipped[..k], skipped[k].reason);
        assert skipped == skipped[..k] + [Skip(Some(last), skipped[k].reason)];
      }
      assert bidders == bidders[..n] + [last];
      assert ToSet(bidders) == ToSet(bidders[..n]) + {last};
    }
  }

  lemma SkippedLast(front: seq<Address>, last: Address, revealed: seq<Address>, skipped: seq<Skip>, reason: Reason)
    requires EachReported(front, revealed, skipped)
    ensures EachReported(front + [last], revealed, skipped + [Skip(Some(last), reason)])
  {
    var longer := skipped + [Skip(Some(last), reason)];
    assert Skip(Some(last), reason) in longer;
    forall b | b in front && b !in revealed
      ensures exists x :: Skip(Some(b), x) in longer
    {
      var x :| Skip(Some(b), x) in skipped;
      assert Skip(Some(b), x) in longer;
    }
  }

  /** When every skip means revealed, every bidder is. */
  lemma MergesReports(s: State, rid: nat, bidders: seq<Address>, revealed: seq<Address>, skipped: seq<Skip>,
          seals: Address -> SealRead)
    requires Merges(bidders, revealed, skipped)
    requires EachRevealed(s, rid, revealed) && SkipsTrue(s, rid, seals, skipped)
    ensures Complete(skipped) ==> EachRevealed(s, rid, bidders)
  {
    MergesWithin(bidders, revealed, skipped);
    hide Merges, IsRevealed;
    if Complete(skipped) {
      forall b | b in bidders && b !in revealed
        ensures IsRevealed(s, rid, b)
      {
        var reason :| Skip(Some(b), reason) in skipped;
        assert ReasonTrue(s, rid, b, seals(b), reason) && MeansRevealed(reason);
      }
    }
  }

  lemma InvWindow(s: State, rid: nat)
    requires Inv(s) && rid in s.cells && s.cells[rid].round.status == Revealing
    requires s.now <= s.cells[rid].round.revealDeadline
    ensures EachInWindow(s, rid, s.cells[rid].round.bidders)
  {
    assert IndexMatches(s.cells[rid]);
  }

  lemma RevealedIsAnswered(s: State, rid: nat, seals: Address -> SealRead)
    requires AllRevealed(s, rid)
    ensures EachAnswered(s, rid, s.cells[rid].round.bidders, seals)
  {
  }

  /** The index past Open, at any later time. */
  lemma SameIndex(s: State, t: State, rid: nat)
    requires Inv(s) && Follows(s, t) && rid in s.cells && s.cells[rid].round.status != Open
    ensures rid in t.cells && t.cells[rid].round.bidders == s.cells[rid].round.bidders
    ensures t.cells[rid].round.status in Checkpoint.SatisfiedBy(Checkpoint.OpenReveal)
    ensures t.cells[rid].round.revealDeadline == s.cells[rid].round.revealDeadline
    ensures Inv(t) && s.now <= t.now
  {
    hide Inv, Follows;
    FollowsFacts(s, t);
  }

  lemma CursorRevealed(store: Checkpoint.Store?, s: State, rid: nat)
    requires StoreTrue(store, s) && StepAlreadyDone(store, rid, Checkpoint.Reveal)
    ensures AllRevealed(s, rid)
  {
    assert StepTrue(s, rid, Checkpoint.Reveal);
  }

  lemma SweptIsTrue(s: State, rid: nat, bidders: seq<Address>)
    requires EachRevealed(s, rid, bidders) && rid in s.cells && s.cells[rid].round.bidders == bidders
    requires s.cells[rid].round.status in Checkpoint.SatisfiedBy(Checkpoint.OpenReveal)
    ensures StepTrue(s, rid, Checkpoint.Reveal)
  {
  }

  /** Phase B of `keepRound`, entered with the round read as Revealing. */
  method RevealPhase(chain: Chain, store: Checkpoint.Store?, rid: nat, seals: Address -> SealRead, clock: string)
    returns (r: Result<(), Fault>, revealed: seq<Address>, skipped: seq<Skip>)
    requires Inv(chain.state) && rid in chain.state.cells && chain.state.cells[rid].round.status == Revealing
    modifies chain, store
    ensures Follows(old(chain.state), chain.state)
    ensures Grows(old(FileOf(store)), FileOf(store), rid)
    ensures old(StoreTrue(store, chain.state)) ==> StoreTrue(store, chain.state)
    ensures r.Ok? && Swept(skipped) ==> Recorded(store, rid, Checkpoint.Reveal)
    ensures EachRevealed(chain.state, rid, revealed) && ReportTrue(chain.state, rid, seals, skipped)
    ensures old(StoreTrue(store, chain.state)) && Skip(None, CheckpointComplete) in skipped ==>
              AllRevealed(chain.state, rid)
    ensures Unobstructed(chain, old(chain.state), chain.state, rid) && old(StoreTrue(store, chain.state)) ==>
              var bidders := old(chain.state).cells[rid].round.bidders;
              && (r.Err? ==> r.error == Refused(BidExceedsEscrow) && SomeOverbid(chain.state, rid, bidders, seals))
              && (r.Ok? ==> EachAnswered(chain.state, rid, bidders, seals))
    ensures Kept(chain.turns, old(chain.asked), chain.asked, old(chain.state), chain.state, rid)
    ensures chain.AlwaysUp() && r.Err? ==>
              SomeThrows(chain.state, rid, old(chain.state).cells[rid].round.bidders, seals, r.error)
    ensures chain.landed == old(chain.landed) + RevealCalls(rid, revealed, seals)
    ensures forall b :: b in revealed ==> seals(b).Opened?
    ensures r.Ok? ==>
              Shaped(old(StepAlreadyDone(store, rid, Checkpoint.Reveal)), old(chain.state).cells[rid].round.bidders,
                     revealed, skipped)
    ensures chain.AlwaysUp() ==> AllRead(skipped)
  {
    hide Merges, Run, RevealCalls, AllRead, EachRevealed, SkipsTrue, Grows, Complete;
    hide Inv, Follows, StoreTrue, AllRevealed, EachAnswered, SomeOverbid, IsRevealed, ReasonTrue, Kept, SomeThrows;
    ghost var start, from := chain.state, chain.asked;
    KeptSelf(chain.turns, from, start, rid);
    revealed, skipped := [], [];
    FollowsSelf(start);
    NothingReported(start, rid, seals);
    NothingGrown(FileOf(store), rid);
    if StepAlreadyDone(store, rid, Checkpoint.Reveal) {
      skipped := [Skip(None, CheckpointComplete)];
      if StoreTrue(store, start) {
        CursorRevealed(store, start, rid);
        RevealedIsAnswered(start, rid, seals);
      }
      return Ok(()), revealed, skipped;
    }
    var index := ReadBidders(chain, rid);
    ghost var mid, turn := chain.state, chain.asked;
    SameIndex(start, mid, rid);
    if StoreTrue(store, start) {
      StoreFollows(start, mid, store);
    }
    NothingReported(mid, rid, seals);
    if index.Err? {
      return Err(index.error), revealed, skipped;
    }
    r, revealed, skipped := RevealIndex(chain, store, rid, index.value, seals, clock);
    FollowsTrans(start, mid, chain.state);
    NamesSomeone(chain.state, rid, seals, skipped);
    KeptTrans(chain.turns, from, turn, chain.asked, start, mid, chain.state, rid);
    SameIndex(mid, chain.state, rid);
    if Unobstructed(chain, start, chain.state, rid) {
      StaysRevealing(start, mid, rid);
    }
  }

  /** Reveal the bidders of an index read in full, and record `reveal` when none is left sealed. */
  method RevealIndex(chain: Chain, store: Checkpoint.Store?, rid: nat, bidders: seq<Address>,
          seals: Address -> SealRead, clock: string)
    returns (r: Result<(), Fault>, revealed: seq<Address>, skipped: seq<Skip>)
    requires Inv(chain.state) && rid in chain.state.cells && chain.state.cells[rid].round.status != Open
    requires chain.state.cells[rid].round.bidders == bidders
    modifies chain, store
    ensures Follows(old(chain.state), chain.state)
    ensures Grows(old(FileOf(store)), FileOf(store), rid)
    ensures old(StoreTrue(store, chain.state)) ==> StoreTrue(store, chain.state)
    ensures r.Ok? && Complete(skipped) ==> Recorded(store, rid, Checkpoint.Reveal)
    ensures EachRevealed(chain.state, rid, revealed) && SkipsTrue(chain.state, rid, seals, skipped)
    ensures Unobstructed(chain, old(chain.state), chain.state, rid)
            && old(chain.state).cells[rid].round.status == Revealing ==>
              && (r.Err? ==> r.error == Refused(BidExceedsEscrow) && SomeOverbid(chain.state, rid, bidders, seals))
              && (r.Ok? ==> EachAnswered(chain.state, rid, bidders, seals))
    ensures Kept(chain.turns, old(chain.asked), chain.asked, old(chain.state), chain.state, rid)
    ensures chain.AlwaysUp() && r.Err? ==>
              SomeThrows(chain.state, rid, old(chain.state).cells[rid].round.bidders, seals, r.error)
    ensures chain.landed == old(chain.landed) + RevealCalls(rid, revealed, seals)
    ensures forall b :: b in revealed ==> seals(b).Opened?
    ensures r.Ok? ==> Merges(bidders, revealed, skipped)
    ensures chain.AlwaysUp() ==> AllRead(skipped)
    ensures store != null ==>
              Adds(old(FileOf(store)), FileOf(store), rid,
                   if r.Ok? && Complete(skipped) then {Checkpoint.Reveal} else {})
  {
    hide Adds;
    NothingAdded(FileOf(store), rid);
    hide Merges, RevealCalls, AllRead;
    hide Inv, Follows, StoreTrue, AllRevealed, StepTrue, EachRevealed, EachAnswered, SomeOverbid, Complete, SkipsTrue;
    hide Kept, SomeThrows;
    ghost var start := chain.state;
    InvIndexed(start, rid);
    r, revealed, skipped := RevealAll(chain, rid, bidders, seals);
    SameIndex(start, chain.state, rid);
    if StoreTrue(store, start) {
      StoreFollows(start, chain.state, store);
    }
    if Unobstructed(chain, start, chain.state, rid) && start.cells[rid].round.status == Revealing {
      InvWindow(start, rid);
    }
    if r.Err? {
      return;
    }
    var complete := Every(skipped);
    if complete {
      SweptIsTrue(chain.state, rid, bidders);
      RecordStep(store, rid, Checkpoint.Reveal, clock, chain.state);
    }
  }

  const IDEMPOTENT_OPEN: set<Error> := {RevealAlreadyOpen, WrongStatus, AlreadyCleared}

  lemma AttemptOpen(s: State, rid: nat, ok: bool)
    ensures Attempt(s, Call.OpenReveal(rid, ok)) == Spec.OpenReveal(s, rid, ok)
  {
  }

  /** Accepted, or refused as already done, the round is past Open. */
  lemma OpenedOrPast(s: State, rid: nat, ok: bool)
    ensures match Spec.OpenReveal(s, rid, ok)
            case Ok(t) => StepTrue(t, rid, Checkpoint.OpenReveal)
            case Err(e) => e in IDEMPOTENT_OPEN ==> StepTrue(s, rid, Checkpoint.OpenReveal)
  {
  }

  /** On time and with a good signature, opening is refused only when it is done already. */
  lemma OpenRefused(s: State, rid: nat)
    requires Live(s, rid) && s.now > s.cells[rid].round.commitDeadline && Spec.OpenReveal(s, rid, true).Err?
    ensures Spec.OpenReveal(s, rid, true).error in IDEMPOTENT_OPEN
  {
  }

  /** Why opening the window throws: others finished the round, the chain finds it too early, or the beacon is bad. */
  ghost predicate OpenThrows(s: State, rid: nat, valid: bool, f: Fault) {
    && f.Refused? && rid in s.cells
    && match s.cells[rid].round.status
       case Open =>
         || (f.error == CommitNotClosed && s.now <= s.cells[rid].round.commitDeadline)
         || (f.error == InvalidDrandSignature && !valid)
       case Settled => f.error == AlreadySettled
       case Voided => f.error == RoundVoided
       case _ => false
  }

  /** The states on which opening the window throws. */
  ghost predicate OpenFails(s: State, rid: nat, valid: bool) {
    || HasStatus(s, rid, {Settled, Voided})
    || (HasStatus(s, rid, {Open}) && (s.now <= s.cells[rid].round.commitDeadline || !valid))
  }

  /** Read as Open, and still to be opened when the call arrives. */
  ghost predicate OpenedBy(m: State, b: State, rid: nat, valid: bool) {
    HasStatus(m, rid, {Open}) && Spec.OpenReveal(b, rid, valid).Ok?
  }

  lemma OpenFailsIff(s: State, rid: nat, valid: bool)
    requires rid in s.cells
    ensures var r := Spec.OpenReveal(s, rid, valid);
            (r.Err? && !Matches(Refused(r.error), IDEMPOTENT_OPEN)) <==> OpenFails(s, rid, valid)
  {
  }

  /** The pass reads the round in `m`, decides to open it, and its `open_reveal` meets `b`. */
  ghost predicate OpeningThrows(m: State, b: State, rid: nat, beacon: Beacon) {
    HasStatus(m, rid, {Open}) && beacon.Served? && OpenFails(b, rid, beacon.valid)
  }

  function OpenCalls(rid: nat, beacon: Beacon, sent: bool): seq<Call> {
    if sent && beacon.Served? then [Call.OpenReveal(rid, beacon.valid)] else []
  }

  /** The calls a pass that reports this made itself. */
  function KeepCalls(rid: nat, beacon: Beacon, seals: Address -> SealRead, r: KeeperResult): seq<Call> {
    OpenCalls(rid, beacon, r.openedReveal) + RevealCalls(rid, r.revealed, seals)
  }

  lemma OpenErrors(s: State, rid: nat, valid: bool)
    requires rid in s.cells && Spec.OpenReveal(s, rid, valid).Err?
    ensures var f := Refused(Spec.OpenReveal(s, rid, valid).error);
            Matches(f, IDEMPOTENT_OPEN) || OpenThrows(s, rid, valid, f)
  {
  }

  ghost predicate InTimeToOpen(s: State, rid: nat, valid: bool) {
    Live(s, rid) && valid && s.now > s.cells[rid].round.commitDeadline
  }

  /** Revealing already, or due to open with a good signature at hand. */
  ghost predicate InTime(s: State, rid: nat, beacon: Beacon) {
    Live(s, rid) && (s.cells[rid].round.status == Open ==>
      beacon == Served(true) && s.now > s.cells[rid].round.commitDeadline)
  }

  lemma StillInTime(s: State, t: State, rid: nat, valid: bool)
    requires Inv(s) && Follows(s, t) && InTimeToOpen(s, rid, valid) && t.now <= s.cells[rid].round.revealDeadline
    ensures InTimeToOpen(t, rid, valid)
  {
    hide Inv, Follows;
    FollowsStaysLive(s, t, rid);
    FollowsFacts(s, t);
  }

  /** Phase A of `keepRound` once the beacon is at hand: open the window, or learn that it is open. */
  method OpenPhase(chain: Chain, store: Checkpoint.Store?, rid: nat, valid: bool, clock: string)
    returns (r: Result<bool, Fault>)
    requires Inv(chain.state)
    modifies chain, store
    ensures Follows(old(chain.state), chain.state)
    ensures Grows(old(FileOf(store)), FileOf(store), rid)
    ensures old(StoreTrue(store, chain.state)) ==> StoreTrue(store, chain.state)
    ensures r.Ok? ==> StepTrue(chain.state, rid, Checkpoint.OpenReveal) && Recorded(store, rid, Checkpoint.OpenReveal)
    ensures Unobstructed(chain, old(chain.state), chain.state, rid) && InTimeToOpen(old(chain.state), rid, valid) ==>
              r.Ok?
    ensures chain.AlwaysUp() && rid in old(chain.state).cells && r.Err? ==> OpenThrows(chain.state, rid, valid, r.error)
    ensures chain.AlwaysUp() && rid in old(chain.state).cells ==>
              (r.Err? <==> OpenFails(old(chain.First()), rid, valid))
    ensures chain.asked >= old(chain.asked)
    ensures chain.AlwaysUp() ==> (r == Ok(true) <==> Spec.OpenReveal(old(chain.First()), rid, valid).Ok?)
    ensures chain.landed == old(chain.landed) + if r == Ok(true) then [Call.OpenReveal(rid, valid)] else []
    ensures store != null ==>
              Adds(old(FileOf(store)), FileOf(store), rid, if r.Ok? then {Checkpoint.OpenReveal} else {})
  {
    hide Adds;
    NothingAdded(FileOf(store), rid);
    hide OpenFails;
    hide Inv, Run, Follows, Attempt, Spec.OpenReveal, StepTrue, OpenThrows, StoreTrue;
    ghost var start := chain.state;
    ghost var before: State;
    var sent: Result<(), Fault>;
    sent, before := chain.Submit(Call.OpenReveal(rid, valid));
    AttemptOpen(before, rid, valid);
    OpenedOrPast(before, rid, valid);
    SoundFollows(start, before);
    if StoreTrue(store, start) {
      StoreFollows(start, chain.state, store);
    }
    StayedFound(start, before, rid);
    if rid in before.cells {
      OpenFailsIff(before, rid, valid);
    }
    if sent.Err? {
      if sent.error.Refused? && rid in start.cells {
        OpenErrors(before, rid, valid);
      }
      if Unobstructed(chain, start, chain.state, rid) && InTimeToOpen(start, rid, valid) {
        StillInTime(start, before, rid, valid);
        OpenRefused(before, rid);
      }
      if !Matches(sent.error, IDEMPOTENT_OPEN) {
        return Err(sent.error);
      }
    }
    RecordStep(store, rid, Checkpoint.OpenReveal, clock, chain.state);
    r := Ok(sent.Ok?);
  }

  /** A round read back after others acted still satisfies what opening it on time needs. */
  lemma InTimeFollows(s: State, t: State, rid: nat, beacon: Beacon)
    requires Inv(s) && Follows(s, t) && InTime(s, rid, beacon) && t.now <= s.cells[rid].round.revealDeadline
    ensures InTime(t, rid, beacon) && t.cells[rid].round.revealDeadline == s.cells[rid].round.revealDeadline
  {
    hide Inv, Follows;
    FollowsFacts(s, t);
    FollowsStaysLive(s, t, rid);
  }

  /** Phase A and the read that follows it. */
  method OpenAndReread(chain: Chain, store: Checkpoint.Store?, rid: nat, valid: bool, clock: string)
    returns (r: Result<(Round, bool), Fault>)
    requires Inv(chain.state)
    modifies chain, store
    ensures Follows(old(chain.state), chain.state)
    ensures Grows(old(FileOf(store)), FileOf(store), rid)
    ensures old(StoreTrue(store, chain.state)) ==> StoreTrue(store, chain.state)
    ensures r.Ok? ==>
              && rid in chain.state.cells && r.value.0 == chain.state.cells[rid].round
              && StepTrue(chain.state, rid, Checkpoint.OpenReveal)
    ensures Unobstructed(chain, old(chain.state), chain.state, rid) && InTimeToOpen(old(chain.state), rid, valid) ==>
              && r.Ok? && r.value.0.status == Revealing
              && r.value.0.revealDeadline == old(chain.state).cells[rid].round.revealDeadline
    ensures chain.AlwaysUp() && rid in old(chain.state).cells && r.Err? ==> OpenThrows(chain.state, rid, valid, r.error)
    ensures chain.AlwaysUp() && rid in old(chain.state).cells ==>
              (r.Err? <==> OpenFails(old(chain.First()), rid, valid))
    ensures chain.asked >= old(chain.asked)
    ensures chain.AlwaysUp() && r.Ok? ==> (r.value.1 <==> Spec.OpenReveal(old(chain.First()), rid, valid).Ok?)
    ensures r.Ok? ==> chain.landed == old(chain.landed) + if r.value.1 then [Call.OpenReveal(rid, valid)] else []
    ensures old(chain.landed) <= chain.landed
  {
    hide Spec.OpenReveal;
    hide Run, OpenThrows, OpenFails;
    hide Inv, Follows, StepTrue, StoreTrue, Evolves, Reaches;
    ghost var start := chain.state;
    var submitted := OpenPhase(chain, store, rid, valid, clock);
    ghost var late := chain.state;
    FollowsFacts(start, late);
    if submitted.Err? {
      return Err(submitted.error);
    }
    var read := chain.GetRound(rid);
    FollowsTrans(start, late, chain.state);
    if StoreTrue(store, late) {
      StoreFollows(late, chain.state, store);
    }
    StepTrueFollows(late, chain.state, rid, Checkpoint.OpenReveal);
    if Unobstructed(chain, start, chain.state, rid) {
      OpenedInWindow(start, chain.state, rid);
    }
    StayedFound(start, chain.state, rid);
    if read.Err? {
      return Err(read.error);
    }
    r := Ok((read.value, submitted.value));
  }

  /** A live round past Open within its window is Revealing, and was all along bound by the same deadline. */
  lemma OpenedInWindow(s: State, t: State, rid: nat)
    requires Inv(s) && Follows(s, t) && Live(s, rid) && t.now <= s.cells[rid].round.revealDeadline
    requires StepTrue(t, rid, Checkpoint.OpenReveal)
    ensures rid in t.cells && t.cells[rid].round.status == Revealing
    ensures t.cells[rid].round.revealDeadline == s.cells[rid].round.revealDeadline
  {
    hide Inv, Follows;
    FollowsFacts(s, t);
    FollowsStaysLive(s, t, rid);
  }

  /** `keepRound` up to its reveal phase: the round as last read, and whether this pass opened it. */
  method OpenStage(chain: Chain, store: Checkpoint.Store?, rid: nat, beacon: Beacon, clock: string)
    returns (r: Result<(Round, bool), Fault>)
    requires Inv(chain.state)
    modifies chain, store
    ensures Follows(old(chain.state), chain.state)
    ensures Grows(old(FileOf(store)), FileOf(store), rid)
    ensures old(StoreTrue(store, chain.state)) ==> StoreTrue(store, chain.state)
    ensures r.Ok? ==>
              && rid in chain.state.cells && r.value.0 == chain.state.cells[rid].round
              && (r.value.1 ==> StepTrue(chain.state, rid, Checkpoint.OpenReveal))
    ensures Unobstructed(chain, old(chain.state), chain.state, rid) && InTime(old(chain.state), rid, beacon) ==>
              && r.Ok? && r.value.0.status == Revealing
              && r.value.0.revealDeadline == old(chain.state).cells[rid].round.revealDeadline
    ensures chain.AlwaysUp() && rid in old(chain.state).cells && r.Err? ==>
              OpenThrows(chain.state, rid, beacon == Served(true), r.error)
    ensures PastOpen(old(chain.state), rid) ==>
              Kept(chain.turns, old(chain.asked), chain.asked, old(chain.state), chain.state, rid)
    ensures chain.AlwaysUp() && rid in old(chain.state).cells ==>
              (r.Err? <==> OpeningThrows(old(chain.First()), old(chain.Second()), rid, beacon))
    ensures chain.asked >= old(chain.asked)
    ensures chain.AlwaysUp() && r.Ok? ==>
              (r.value.1 <==> beacon.Served? && OpenedBy(old(chain.First()), old(chain.Second()), rid, beacon.valid))
    ensures r.Ok? ==>
              chain.landed == old(chain.landed) + OpenCalls(rid, beacon, r.value.1) && (r.value.1 ==> beacon.Served?)
    ensures r.Ok? && HasStatus(old(chain.First()), rid, {Revealing}) ==>
              r.value.0.status == Revealing && FileOf(store) == old(FileOf(store))
    ensures old(chain.landed) <= chain.landed
  {
    hide Spec.OpenReveal;
    hide OpenFails;
    hide Inv, Run, Follows, StoreTrue, StepTrue, InTime, InTimeToOpen, Evolves, Reaches, Kept, OpenThrows;
    ghost var start, from := chain.state, chain.asked;
    var read := chain.GetRound(rid);
    ghost var mid := chain.state;
    KeptTurn(chain.turns, from, start, rid);
    SoundFollows(start, mid);
    StayedFound(start, mid, rid);
    if PastOpen(start, rid) {
      StillPastOpen(start, mid, rid);
    }
    if StoreTrue(store, start) {
      StoreFollows(start, mid, store);
    }
    if InTime(start, rid, beacon) {
      InTimeIsLive(start, rid, beacon);
      if mid.now <= start.cells[rid].round.revealDeadline {
        InTimeFollows(start, mid, rid, beacon);
        InTimeIsLive(mid, rid, beacon);
      }
    }
    if read.Err? {
      return Err(read.error);
    }
    if read.value.status != Open || !beacon.Served? {
      return Ok((read.value, false));
    }
    r := OpenAndReread(chain, store, rid, beacon.valid, clock);
    FollowsTrans(start, mid, chain.state);
    SoundFollows(mid, chain.state);
  }

  lemma StillPastOpen(s: State, t: State, rid: nat)
    requires Inv(s) && Follows(s, t) && PastOpen(s, rid)
    ensures PastOpen(t, rid)
  {
    hide Inv, Follows;
    FollowsFacts(s, t);
  }

  lemma InTimeIsLive(s: State, rid: nat, beacon: Beacon)
    requires InTime(s, rid, beacon)
    ensures rid in s.cells
            && (s.cells[rid].round.status != Open || !beacon.Served? ==> s.cells[rid].round.status == Revealing)
    ensures Live(s, rid) && (s.cells[rid].round.status == Open ==> beacon.Served? && InTimeToOpen(s, rid, beacon.valid))
  {
  }

  lemma NotOverbid(s: State, rid: nat, bidders: seq<Address>, seals: Address -> SealRead)
    requires EachAnswered(s, rid, bidders, seals)
    ensures !SomeOverbid(s, rid, bidders, seals)
  {
  }

  /** What a reveal phase established survives the read of the round that ends the pass. */
  lemma RevealPhaseFollows(s: State, t: State, rid: nat, revealed: seq<Address>, skipped: seq<Skip>,
          seals: Address -> SealRead)
    requires Inv(s) && Follows(s, t) && rid in s.cells && s.cells[rid].round.status != Open
    ensures EachRevealed(s, rid, revealed) ==> EachRevealed(t, rid, revealed)
    ensures ReportTrue(s, rid, seals, skipped) ==> ReportTrue(t, rid, seals, skipped)
    ensures AllRevealed(s, rid) ==> AllRevealed(t, rid)
    ensures EachAnswered(s, rid, s.cells[rid].round.bidders, seals) ==>
              EachAnswered(t, rid, s.cells[rid].round.bidders, seals)
  {
    hide Inv, Follows, EachRevealed, AllRevealed, EachAnswered, SkipsTrue;
    if SkipsTrue(s, rid, seals, skipped) {
      SkipsTrueFollows(s, t, rid, seals, skipped);
    }
    if EachRevealed(s, rid, revealed) {
      EachRevealedFollows(s, t, rid, revealed);
    }
    if AllRevealed(s, rid) {
      AllRevealedFollows(s, t, rid);
    }
    if EachAnswered(s, rid, s.cells[rid].round.bidders, seals) {
      EachAnsweredFollows(s, t, rid, s.cells[rid].round.bidders, seals);
    }
  }

  /** Phase B and the read that ends the pass. */
  method RevealStage(chain: Chain, store: Checkpoint.Store?, rid: nat, seals: Address -> SealRead, clock: string)
    returns (r: Result<KeeperResult, Fault>)
    requires Inv(chain.state) && rid in chain.state.cells && chain.state.cells[rid].round.status == Revealing
    modifies chain, store
    ensures Follows(old(chain.state), chain.state)
    ensures Grows(old(FileOf(store)), FileOf(store), rid)
    ensures old(StoreTrue(store, chain.state)) ==> StoreTrue(store, chain.state)
    ensures rid in chain.state.cells
            && chain.state.cells[rid].round.bidders == old(chain.state).cells[rid].round.bidders
    ensures r.Ok? ==>
              && r.value.finalStatus == chain.state.cells[rid].round.status && !r.value.openedReveal
              && (Swept(r.value.skipped) ==> Recorded(store, rid, Checkpoint.Reveal))
              && EachRevealed(chain.state, rid, r.value.revealed)
              && ReportTrue(chain.state, rid, seals, r.value.skipped)
              && (old(StoreTrue(store, chain.state)) && Skip(None, CheckpointComplete) in r.value.skipped ==>
                    AllRevealed(chain.state, rid))
    ensures Unobstructed(chain, old(chain.state), chain.state, rid) && old(StoreTrue(store, chain.state)) ==>
              var bidders := old(chain.state).cells[rid].round.bidders;
              && (r.Err? ==> r.error == Refused(BidExceedsEscrow) && SomeOverbid(chain.state, rid, bidders, seals))
              && (r.Ok? ==> EachAnswered(chain.state, rid, bidders, seals))
    ensures Kept(chain.turns, old(chain.asked), chain.asked, old(chain.state), chain.state, rid)
    ensures chain.AlwaysUp() && r.Err? ==>
              SomeThrows(chain.state, rid, old(chain.state).cells[rid].round.bidders, seals, r.error)
    ensures r.Ok? ==>
              && chain.landed == old(chain.landed) + RevealCalls(rid, r.value.revealed, seals)
              && (forall b :: b in r.value.revealed ==> seals(b).Opened?)
              && Shaped(old(StepAlreadyDone(store, rid, Checkpoint.Reveal)), old(chain.state).cells[rid].round.bidders,
                        r.value.revealed, r.value.skipped)
              && (chain.AlwaysUp() ==> AllRead(r.value.skipped))
    ensures old(chain.landed) <= chain.landed
  {
    hide Shaped, RevealCalls, AllRead;
    hide Inv, Follows, EachRevealed, AllRevealed, EachAnswered, SomeOverbid, StoreTrue, ReportTrue;
    hide Run, Kept, SomeThrows;
    ghost var start, from := chain.state, chain.asked;
    var outcome, revealed, skipped := RevealPhase(chain, store, rid, seals, clock);
    ghost var late, turn := chain.state, chain.asked;
    SameIndex(start, late, rid);
    if outcome.Err? {
      return Err(outcome.error);
    }
    var read := chain.GetRound(rid);
    FollowsTrans(start, late, chain.state);
    KeptTurn(chain.turns, turn, late, rid);
    KeptTrans(chain.turns, from, turn, chain.asked, start, late, chain.state, rid);
    SameIndex(late, chain.state, rid);
    RevealPhaseFollows(late, chain.state, rid, revealed, skipped, seals);
    if StoreTrue(store, late) {
      StoreFollows(late, chain.state, store);
    }
    if read.Err? {
      return Err(read.error);
    }
    r := Ok(KeeperResult(read.value.status, false, revealed, skipped));
  }

  /** Why a pass throws: opening the window does, or revealing some indexed bidder. */
  ghost predicate KeepThrows(s: State, rid: nat, beacon: Beacon, seals: Address -> SealRead, f: Fault) {
    && rid in s.cells
    && (OpenThrows(s, rid, beacon == Served(true), f) || SomeThrows(s, rid, s.cells[rid].round.bidders, seals, f))
  }

  lemma OpenThrowCounts(s: State, rid: nat, beacon: Beacon, seals: Address -> SealRead, f: Fault)
    requires OpenThrows(s, rid, beacon == Served(true), f)
    ensures KeepThrows(s, rid, beacon, seals, f)
  {
  }

  lemma SomeThrowCounts(s: State, rid: nat, beacon: Beacon, seals: Address -> SealRead, f: Fault)
    requires rid in s.cells && SomeThrows(s, rid, s.cells[rid].round.bidders, seals, f)
    ensures KeepThrows(s, rid, beacon, seals, f)
  {
  }

  /** Too late for a reveal to be accepted or refused on its merits, a pass throws only on a round past Revealing. */
  lemma LateThrow(s: State, rid: nat, beacon: Beacon, seals: Address -> SealRead, f: Fault)
    requires KeepThrows(s, rid, beacon, seals, f) && PastOpen(s, rid) && Late(s, rid)
    ensures HasStatus(s, rid, {Cleared, Settled, Voided})
    ensures f in {Refused(RevealNotOpen), Refused(AlreadySettled), Refused(RoundVoided)}
  {
  }

  /**
   * `keepRound`. Whatever the others do and wherever requests fail, a true cursor stays true, and what the
   * pass reports happened. When no request is lost and the window stays open, the pass throws exactly when
   * some indexed bidder sealed a bid above its escrow; otherwise it leaves nothing to reveal. Whenever no
   * request is lost, what it throws has its cause in the chain, and past Open it changes no status itself.
   */
  method KeepRound(chain: Chain, store: Checkpoint.Store?, rid: nat, beacon: Beacon,
          seals: Address -> SealRead, clock: string)
    returns (r: Result<KeeperResult, Fault>)
    requires Inv(chain.state)
    modifies chain, store
    ensures Follows(old(chain.state), chain.state)
    ensures Grows(old(FileOf(store)), FileOf(store), rid)
    ensures old(StoreTrue(store, chain.state)) ==> StoreTrue(store, chain.state)
    ensures r.Ok? ==>
              && rid in chain.state.cells && r.value.finalStatus == chain.state.cells[rid].round.status
              && (r.value.openedReveal ==> StepTrue(chain.state, rid, Checkpoint.OpenReveal))
              && EachRevealed(chain.state, rid, r.value.revealed)
              && ReportTrue(chain.state, rid, seals, r.value.skipped)
              && (old(StoreTrue(store, chain.state)) && Skip(None, CheckpointComplete) in r.value.skipped ==>
                    AllRevealed(chain.state, rid))
    ensures var s := old(chain.state); var t := chain.state;
            Unobstructed(chain, s, t, rid) && InTime(s, rid, beacon) && old(StoreTrue(store, chain.state)) ==>
              && rid in t.cells && t.cells[rid].round.status == Revealing
              && (r.Err? <==> SomeOverbid(t, rid, t.cells[rid].round.bidders, seals))
              && (r.Err? ==> r.error == Refused(BidExceedsEscrow))
              && (r.Ok? ==> EachAnswered(t, rid, t.cells[rid].round.bidders, seals))
              && (r.Ok? && Swept(r.value.skipped) ==> Recorded(store, rid, Checkpoint.Reveal))
    ensures chain.AlwaysUp() && rid in old(chain.state).cells && r.Err? ==>
              KeepThrows(chain.state, rid, beacon, seals, r.error)
    ensures chain.AlwaysUp() && rid in old(chain.state).cells ==>
              (OpeningThrows(old(chain.First()), old(chain.Second()), rid, beacon) ==> r.Err?)
    ensures PastOpen(old(chain.state), rid) ==>
              Kept(chain.turns, old(chain.asked), chain.asked, old(chain.state), chain.state, rid)
    ensures chain.asked >= old(chain.asked)
    ensures r.Ok? ==>
              && chain.landed == old(chain.landed) + KeepCalls(rid, beacon, seals, r.value)
              && (r.value.openedReveal ==> beacon.Served?) && (forall b :: b in r.value.revealed ==> seals(b).Opened?)
              && (chain.AlwaysUp() ==>
                    && AllRead(r.value.skipped)
                    && (r.value.openedReveal <==>
                          beacon.Served? && OpenedBy(old(chain.First()), old(chain.Second()), rid, beacon.valid)))
    ensures r.Ok? && HasStatus(old(chain.First()), rid, {Revealing}) ==>
              Shaped(old(StepAlreadyDone(store, rid, Checkpoint.Reveal)), chain.state.cells[rid].round.bidders,
                     r.value.revealed, r.value.skipped)
    ensures old(chain.landed) <= chain.landed
  {
    hide OpenedBy, Shaped, RevealCalls, AllRead, OpenCalls, HasStatus, Swept, Late;
    hide Run, OpeningThrows, KeepThrows, Grows, AllRevealed, ReportTrue, Kept, OpenThrows, SomeThrows, OthersMoved;
    hide Inv, Follows, IsRevealed, Overbid, Answered, InWindow, InTime, Unobstructed, Recorded;
    hide StepTrue, SomeOverbid, EachAnswered, EachRevealed, StoreTrue;
    ghost var start, from, was, sent := chain.state, chain.asked, FileOf(store), chain.landed;
    var entered := OpenStage(chain, store, rid, beacon, clock);
    ghost var mid, turn, kept, between := chain.state, chain.asked, FileOf(store), chain.landed;
    if entered.Err? {
      if chain.AlwaysUp() && rid in start.cells {
        OpenThrowCounts(chain.state, rid, beacon, seals, entered.error);
      }
      return Err(entered.error);
    }
    SoundFollows(start, mid);
    r := KeepFrom(chain, store, rid, entered.value.0, entered.value.1, seals, clock);
    FollowsTrans(start, mid, chain.state);
    KeptMore(chain.turns, from, turn, chain.asked, start, mid, chain.state, rid);
    GrowsTrans(was, kept, FileOf(store), rid);
    PrefixTrans(sent, between, chain.landed);
    if entered.value.1 {
      StepTrueFollows(mid, chain.state, rid, Checkpoint.OpenReveal);
    }
    if Unobstructed(chain, start, chain.state, rid) && InTime(start, rid, beacon) {
      UnobstructedFirst(chain, start, mid, rid);
      UnobstructedThen(chain, start, mid, rid);
    }
    if r.Err? && chain.AlwaysUp() {
      SomeThrowCounts(chain.state, rid, beacon, seals, r.error);
    }
  }

  /** `keepRound` from the read that follows its opening phase. */
  method KeepFrom(chain: Chain, store: Checkpoint.Store?, rid: nat, round: Round, openedReveal: bool,
          seals: Address -> SealRead, clock: string)
    returns (r: Result<KeeperResult, Fault>)
    requires Inv(chain.state) && rid in chain.state.cells && chain.state.cells[rid].round == round
    modifies chain, store
    ensures Follows(old(chain.state), chain.state)
    ensures Grows(old(FileOf(store)), FileOf(store), rid)
    ensures old(StoreTrue(store, chain.state)) ==> StoreTrue(store, chain.state)
    ensures rid in chain.state.cells
    ensures r.Ok? ==>
              && r.value.finalStatus == chain.state.cells[rid].round.status && r.value.openedReveal == openedReveal
              && EachRevealed(chain.state, rid, r.value.revealed)
              && ReportTrue(chain.state, rid, seals, r.value.skipped)
              && (old(StoreTrue(store, chain.state)) && Skip(None, CheckpointComplete) in r.value.skipped ==>
                    AllRevealed(chain.state, rid))
              && chain.landed == old(chain.landed) + RevealCalls(rid, r.value.revealed, seals)
              && (forall b :: b in r.value.revealed ==> seals(b).Opened?)
              && (chain.AlwaysUp() ==> AllRead(r.value.skipped))
              && (round.status == Revealing ==>
                    Shaped(old(StepAlreadyDone(store, rid, Checkpoint.Reveal)), chain.state.cells[rid].round.bidders,
                           r.value.revealed, r.value.skipped))
    ensures old(chain.landed) <= chain.landed
    ensures var s := old(chain.state); var t := chain.state;
            Unobstructed(chain, s, t, rid) && round.status == Revealing && old(StoreTrue(store, chain.state)) ==>
              && t.cells[rid].round.status == Revealing
              && (r.Err? <==> SomeOverbid(t, rid, t.cells[rid].round.bidders, seals))
              && (r.Err? ==> r.error == Refused(BidExceedsEscrow))
              && (r.Ok? ==> EachAnswered(t, rid, t.cells[rid].round.bidders, seals))
              && (r.Ok? && Swept(r.value.skipped) ==> Recorded(store, rid, Checkpoint.Reveal))
    ensures chain.AlwaysUp() && r.Err? ==>
              SomeThrows(chain.state, rid, chain.state.cells[rid].round.bidders, seals, r.error)
    ensures Kept(chain.turns, old(chain.asked), chain.asked, old(chain.state), chain.state, rid)
  {
    hide Shaped, RevealCalls, AllRead, HasStatus, Swept, Late, Run, Grows, AllRevealed, ReportTrue, Kept, SomeThrows;
    hide Inv, Follows, IsRevealed, Overbid, Answered, InWindow, StepAlreadyDone, Recorded;
    hide StepTrue, SomeOverbid, EachAnswered, EachRevealed, StoreTrue;
    ghost var start := chain.state;
    FollowsSelf(start);
    KeptSelf(chain.turns, chain.asked, start, rid);
    NothingGrown(FileOf(store), rid);
    if round.status != Revealing {
      NothingRevealed(chain.state, rid, seals);
      return Ok(KeeperResult(round.status, openedReveal, [], []));
    }
    var swept := RevealStage(chain, store, rid, seals, clock);
    if Unobstructed(chain, start, chain.state, rid) {
      StaysRevealing(start, chain.state, rid);
      if EachAnswered(chain.state, rid, chain.state.cells[rid].round.bidders, seals) {
        NotOverbid(chain.state, rid, chain.state.cells[rid].round.bidders, seals);
      }
    }
    if swept.Err? {
      return Err(swept.error);
    }
    r := Ok(swept.value.(openedReveal := openedReveal));
  }

  lemma PrefixTrans(a: seq<Call>, b: seq<Call>, c: seq<Call>)
    requires a <= b <= c
    ensures a <= c
  {
  }

  lemma UnobstructedFirst(chain: Chain, s: State, m: State, rid: nat)
    requires Inv(m) && Follows(m, chain.state) && Unobstructed(chain, s, chain.state, rid)
    ensures Unobstructed(chain, s, m, rid)
  {
    hide Inv, Follows;
    SoundFollows(m, chain.state);
  }

  lemma UnobstructedThen(chain: Chain, s: State, m: State, rid: nat)
    requires Unobstructed(chain, s, chain.state, rid)
    requires rid in m.cells && m.cells[rid].round.status == Revealing
    requires m.cells[rid].round.revealDeadline == s.cells[rid].round.revealDeadline
    ensures Unobstructed(chain, m, chain.state, rid) && chain.state.now <= m.cells[rid].round.revealDeadline
    ensures chain.AlwaysUp()
  {
  }

  lemma NothingRevealed(s: State, rid: nat, seals: Address -> SealRead)
    ensures EachRevealed(s, rid, []) && ReportTrue(s, rid, seals, []) && AllRead([])
            && RevealCalls(rid, [], seals) == []
  {
  }
}
