# Verification of the Sub Rosa round, its keeper, its receipts and its formats

This project models the sealed-bid auction contract of Sub Rosa together with the off-chain code that watches,
drives, audits and encodes for it, and proves what they promise.

## What is modelled

**The Round contract.** Many rounds share one token balance. A round collects sealed bids with escrow, opens when a
Drand round is published, lets anybody reveal, picks a winner after the reveal deadline, and pays out. Storage is one
`Cell` per round id (the round record, its bid states, its escrow ledger). `RoundSpec` says what each entry point does
to a state, reachable or not, as a function; `RoundContract.SubRosaRound` is the contract itself, an object whose methods
write its fields step by step, loop over the bidder index, and restore the snapshot on an error. Every method is proved
to compute exactly its function. `Runs` puts calls by anyone, the passing of time and outside token traffic into one
transition system; everything below "over runs" is proved for every sequence of those from deployment.

- `RoundInvariant`, `Runs`: custody. After any run the contract's balance is the sum of what its rounds hold plus
  donations, every ledger satisfies committed = payout + refunds + locked, locked is the escrow of the unsettled indexed
  bids, and index and bid states name the same bidders once each.
- `Acceptance`: on every sound state, exactly which calls each entry point accepts, overwriting commits included, and that
  every error a call is refused with is true of the state it met.
- `Payout`, `Settlement`, `Lifecycle`: settling and refunding cannot fail, finished rounds stay finished, calls stay in
  their round, and exactly which live rounds can still be finished.
- `Guard`: the same escrow guard on *arbitrary* storage, dropped, duplicated and phantom index entries included.
- `Flows`: what everybody gained and lost over a whole run, and that the transfer log tells the truth.
- `Scenario`: runs from deployment, for every hash function, to the states the results speak of and to those in which a
  promise fails.
- `Clearing`, `Binding`, `Progress`: who wins, that the order of reveals is irrelevant, and that what is ranked is what
  was committed, in time, under escrow.

**The off-chain escrow audit** (`Conservation`, `ConservationProofs`, `ConservationIssues`, `ConservationRefines`) walks
bidder pages of a source that may answer anything. Against every source it is sound, and reports exactly the defects of
what was answered; against a faithful one it is conserved under an exact condition, and predicts what `settle` and the
refunds of `clear` and `void` then do.
**The bidder generator** (`Pager`) is the client's own page walk over opaque cursors.

**The keeper** runs against a chain that others call between any two of its requests, with requests that get lost and a
process that may die at any of them. `Interleaving` is that chain: a `Chain` object carries the state and the schedule
of what others do, and all schedules are covered. `Checkpoint` is the durable cursor, its file and its startup repair;
`KeeperCursor` says what a cursor claims about the chain. `KeeperBidders` and `KeeperReveal` are `keepRound`,
`KeeperClose` is `closeRound`, `KeeperVoid` is `voidIfStale`, `KeeperWatch` is one watch tick, and `KeeperLife` the whole
life of the keeper on one file, repairs and restarts included.

**Receipts** (`Hex`, `Decimal`, `ReceiptEvents`, `Receipt`, `ReceiptReport`, `ReceiptWinner`): the offline verifier on
receipts from anywhere, what each issue it reports stands for, whom it ranks and who wins, the exporter, and exactly when
the one accepts what the other wrote.

**Byte formats** (`BigEndian`, `Commitment`, `Payload`, `Auditor`, `AgeHeader`, `Armor`): the commitment preimage, the
payload envelope, the identity-bound auditor payload, and the header of a sealed ciphertext with its armor. The codecs
are bijections between valid values and accepted strings, with every byte at its stated place; the header and armor
parsers accept exactly the laid-out payloads and armored texts.

## Assumptions

- A token transfer fails only on a negative amount or an insufficient balance; nobody but the contract spends its
  balance; others may send tokens to it. The contract's own address authorises nothing, so a call in its name traps.
- Ledger time never decreases. i128 and u64 overflow traps, and a trap or an error rolls the call back.
- The verdict of the on-chain beacon signature check is an input of `OpenReveal`. SHA-256 is some function from byte
  strings to 32 bytes. Nothing assumes it injective, which no such function is: `Binding.RevealedValueIsBound` holds for
  every function, and `Binding.RevealedIsSealed` asks only that the finitely many preimages offered in the run and the
  sealed one do not collide.
- Lookups, pages, seals, base64 decoding, the sealed box and `BigInt` parsing are function inputs, so each result holds
  for every behaviour of theirs that its `requires` admits. `Armor.AcceptsIff` asks of base64 decoding only that nothing
  decodes to nothing.

## Results worth knowing

Some promises of the code or its comments hold only under a condition. Each is stated exactly.

- `Lifecycle.OpenRoundVoidableIff`, `Lifecycle.UnvoidableRoundAccepted`: `create_round` does not check that the reveal
  deadline leaves room for the void grace in a u64, so a round that never opens can be voided later exactly when it does.
- `Lifecycle.RevealingRoundClearableIff`, `Interleaving.LiveRoundFinishableIff`, `Scenario.StuckRoundIsReached`: nor does
  it refuse the last u64 as reveal deadline, which `clear` can never pass. Such a round takes escrow, and no run finishes
  it; every other live round can be finished.
- `KeeperReveal.KeepRound`, `Scenario.OverbidIsReached`: a sealed bid above its own escrow makes the contract answer
  `BidExceedsEscrow`, which the keeper rethrows. With an open window and no lost request, a pass throws exactly when
  there is such a bid still unrevealed; the scenario reaches one.
- `ReceiptEvents.ExportedLogValidIff`, `Receipt.ExportVerifiesIff`, `Scenario.VoidedReceiptFails`,
  `Scenario.ClearedReceiptVerifiesIff`: the exporter always writes the log of a settled round, so the receipt of a voided
  round never verifies; nor does one whose stored seal has an empty part. The scenarios reach both.
- `ReceiptEvents.VerifyReceiptEvents`: a null event is reported as an issue first, but reading its name afterwards throws.
- `ReceiptWinner.RankedIff`, `ReceiptWinner.ValidWithoutNonces`: a binding is checked only where a nonce is given, and a
  revealed bid without one is ranked by its stated value; so a valid receipt stays valid, with the same winner, when its
  nonces are left out.
- `ConservationProofs.ConservedReportPassesChecks`, `ConservationProofs.HiddenDuplicateFoolsReport`: without faithful
  pages, a conserved report implies that `settle` accepts the index exactly when the stored index does not list a bidder
  with positive escrow twice; a source can hide that it does.
- `Checkpoint.WrittenLoadsAgain`, `Checkpoint.ReloadMisattributes`: a cursor comes back from its file unchanged exactly
  when each entry's last completed step is last in its list. Recording a step again names it last without moving it. The
  entry shown needs a direct caller of `markComplete` that supplies a hash; no keeper pass does.
- `KeeperVoid.VoidIfStale`, `Scenario.VoidRaceIsReached`, `Scenario.VoidRaceThrows`: every step of the keeper is meant to
  tolerate work already done (`services/keeper/src/keeper.ts:14-16`), but `RoundVoided` and `AlreadySettled` are not among
  the refusals of `void` the pass tolerates. With no lost request it throws exactly when a round it read as due was voided
  or settled before its `void` arrived, or its grace period does not fit a u64. The scenario is a schedule on which it does.
- `KeeperReveal.OpenPhase`, `KeeperReveal.RevealOne`, `Scenario.KeepRaceIsReached`, `Scenario.KeepRaceThrows`: nor does
  `keepRound` tolerate a round others ended meanwhile. Each of its submissions throws exactly when it meets one (settled or
  voided for `open_reveal`; cleared too for `reveal`), or for a cause of its own that the contracts list.
- `KeeperClose.CloseRound`, `Scenario.CloseRaceIsReached`, `Scenario.CloseRaceThrows`: re-running `closeRound` on a settled
  round is meant to skip (`services/keeper/src/keeper.ts:308-309`), but `AlreadySettled` is not among the refusals of
  `clear` it tolerates. With no lost request it throws exactly when a round it read as Revealing past its deadline, and
  does not have recorded as cleared, was settled before its `clear` arrived. The scenario is such a schedule.
- `KeeperWatch.WatchRound`, `KeeperWatch.WatchTicks`: so a tick can throw on a round that is due, but only when others
  changed its status meanwhile, and two due ticks finish the round whatever others do.
- `ReceiptEvents.LedgersDoNotMatter`, `ReceiptEvents.AcceptedOrderIff`, `ReceiptEvents.DescendingLedgersAccepted`: the
  comment at `packages/sdk/src/receipt-events.ts:98` says ties are broken by ledger number; the code never compares those
  numbers, so an accepted log is in the order described exactly when neighbours of one phase do not descend.
- `contracts/round/src/drand.rs:78-85` uses errors that `contracts/round/src/types.rs` does not list; they are kept
  as distinct values.

## Model

| member | source | states |
|---|---|---|
| RoundContract.SubRosaRound.constructor | contracts/round/src/lib.rs:43-65 | A deployed contract starts with no rounds, a zero counter and an empty log. |
| RoundContract.SubRosaRound.CreateRound | contracts/round/src/lib.rs:69-133 | Refuses in the stated order, leaves no trace when it refuses, and otherwise stores one fresh Open round under the next id. |
| RoundContract.SubRosaRound.Commit | contracts/round/src/lib.rs:145-237 | The whole call, rolled back on any error: checks in order, overwritten escrow back, new escrow in, bidder indexed once, bid replaced. |
| RoundContract.SubRosaRound.AcceptBid | contracts/round/src/lib.rs:199-231 | The part of a commit past its checks: ledger seeded if missing, tokens swapped, index, bid and ledger stored together. |
| RoundContract.SubRosaRound.SwapEscrow | contracts/round/src/lib.rs:203-215 | Refunds the overwritten escrow before taking the new one, and books both in the ledger. |
| RoundContract.SubRosaRound.OpenReveal | contracts/round/src/lib.rs:243-275 | Only an Open round past its commit deadline with a valid beacon signature becomes Revealing; nothing else changes. |
| RoundContract.SubRosaRound.Reveal | contracts/round/src/lib.rs:282-345 | Records a value only if it hashes to the commitment and fits the escrow; every refusal leaves the state as it was. |
| RoundContract.SubRosaRound.Clear | contracts/round/src/lib.rs:350-415 | Fixes the winner after the reveal deadline, or voids and refunds when no valid bid was revealed; rolled back on any error. |
| RoundContract.SubRosaRound.PickWinner | contracts/round/src/lib.rs:368-397 | The loop over the index computes the best bid fold, started from nothing. |
| RoundContract.SubRosaRound.RefundAll | contracts/round/src/lib.rs:722-757 | Guard, refund loop and final check of a void, on any storage. |
| RoundContract.SubRosaRound.RefundEach | contracts/round/src/lib.rs:735-745 | The refund loop in index order, each transfer booked as it is made. |
| RoundContract.SubRosaRound.Settle | contracts/round/src/lib.rs:427-515 | Guard, plan, payout loop and final check, on any storage; rolled back on any error, transfers included. |
| RoundContract.SubRosaRound.SettleChecks | contracts/round/src/lib.rs:447-470 | Scan, conservation and plan checks before any transfer; they write at most a seeded ledger. |
| RoundContract.SubRosaRound.PlanRefunds | contracts/round/src/lib.rs:453-467 | The planned refunds summed over the index, failing on a phantom bidder, an uncovered winning bid or overflow. |
| RoundContract.SubRosaRound.PayOut | contracts/round/src/lib.rs:472-492 | The payout loop: operator paid, surplus and losers refunded, each bid marked settled, the ledger kept in step. |
| RoundContract.SubRosaRound.Void | contracts/round/src/lib.rs:520-541 | Voids and refunds an Open round past the grace period; the deadline sum traps on overflow. |
| RoundContract.SubRosaRound.Transfer | contracts/round/src/lib.rs:207-214 | A transfer moves exactly the amount or fails and changes nothing. |
| RoundContract.SubRosaRound.ScanBidderIndex | contracts/round/src/lib.rs:605-619 | Sums unsettled indexed escrow and counts settled bids, failing on an index entry without a bid. |
| RoundContract.SubRosaRound.ProveConserved | contracts/round/src/lib.rs:675-694 | Accepts exactly a conserved ledger whose locked balance is what the scan finds. |
| RoundContract.SubRosaRound.EnsureLedger | contracts/round/src/lib.rs:700-713 | Returns the stored ledger, or seeds it from the scan and stores it. |
| RoundContract.SubRosaRound.SetState | contracts/round/src/storage.rs:104-110 | Overwrites one bid state of one round and nothing else. |
| RoundContract.SubRosaRound.SetLedger | contracts/round/src/storage.rs:139-145 | Overwrites the escrow ledger of one round and nothing else. |
| RoundContract.SubRosaRound.SetRound | contracts/round/src/storage.rs:77-83 | Overwrites one round record and nothing else. |
| Clearing.ClearPicksEarliestExtremal | contracts/round/src/lib.rs:368-397 | On any storage the fold returns a bidder exactly when it is the earliest indexed one with a valid revealed value that no valid one exceeds (highest bid) or undercuts (lowest bid), and nothing exactly when nobody is eligible. |
| Clearing.WinnerUnique | contracts/round/src/lib.rs:386-397 | There is at most one such position in the index. |
| Clearing.BestBidFrame | contracts/round/src/lib.rs:368-397 | The outcome depends only on validity and revealed value of the indexed bids. |
| RoundInvariant.GuardPasses | contracts/round/src/lib.rs:675-713 | On a sound round with nothing settled the guard accepts and reports exactly the held escrow, with a stored or a late-seeded ledger. |
| RoundInvariant.ScanIsHeld | contracts/round/src/lib.rs:605-619 | The overflow-checked scan cannot fail on covered escrow and returns its sum. |
| RoundInvariant.BalanceCoversRound | contracts/round/src/lib.rs:417-426 | In every sound state the contract holds at least what any one round locks. |
| Runs.CommitEffect | contracts/round/src/lib.rs:165-232 | A successful commit happened in time, for the stored Drand round, with positive escrow; the round, the ledger and the balance move exactly so. |
| Runs.RevealEffect | contracts/round/src/lib.rs:282-338 | A successful reveal was the first for that bid, matched its commitment, and touches only that bid and a missing ledger. |
| Runs.StepInv | contracts/round/src/lib.rs:69-541 | Every call, accepted or refused, by anyone, on any round, keeps every round sound and the balance accounted for. |
| Runs.RunInv | contracts/round/src/lib.rs:188-232 | Custody over all runs: index, bids, ledgers and balance agree after any interleaving of calls, clock and outside transfers. |
| Acceptance.CreateRoundAcceptsIff | contracts/round/src/lib.rs:69-133 | Accepted exactly when the operator can authorise, the seal round is not zero, the auditor key fits, and now < commit deadline < genesis + period * R < reveal deadline; then exactly one fresh Open round is stored. |
| Acceptance.CommitAcceptsIff | contracts/round/src/lib.rs:145-237 | On every sound state, accepted exactly when the round is Open and in time, the amounts, lengths and seal round are right, the bidder is indexed already or fewer than 500 are, balance plus previous escrow covers the new one, and the ledger fits an i128; then the bid is stored or overwritten, and ledger and tokens move by exactly the two escrows. |
| Acceptance.OpenRevealAcceptsIff | contracts/round/src/lib.rs:243-275 | Accepted exactly on an Open round past its commit deadline with a valid signature; then only the status changes. |
| Acceptance.RevealAcceptsIff | contracts/round/src/lib.rs:282-345 | On every sound state, accepted exactly in the window, for an unrevealed bid, with the value and nonce committed to, within the escrow; then exactly that bid is marked. |
| Acceptance.ClearAcceptsIff | contracts/round/src/lib.rs:350-415 | On every sound state, accepted exactly on a Revealing round past its reveal deadline; then the best bid is fixed, or the round is drained. |
| Acceptance.SettleAcceptsIff | contracts/round/src/lib.rs:427-515 | On every sound state, accepted exactly on a Cleared round. |
| Acceptance.VoidAcceptsIff | contracts/round/src/lib.rs:520-541 | On every sound state, accepted exactly on an Open round more than an hour past its reveal deadline; then the round is drained. |
| Acceptance.RefusalsAreTrue | contracts/round/src/lib.rs:69-541 | Whatever the call, the error it is refused with is true of the state it met, and of the call. |
| Payout.SettleAllPays | contracts/round/src/lib.rs:472-492 | On funded escrow the payout loop runs to its end and makes exactly the planned transfers, marking every bid settled. |
| Payout.RefundEachPays | contracts/round/src/lib.rs:735-745 | On funded escrow the refund loop returns every escrow once, in index order. |
| Payout.PlanIsExact | contracts/round/src/lib.rs:453-470 | Planned refunds plus the winning bid are exactly the held escrow, and no partial sum overflows. |
| Settlement.WinnerIsCovered | contracts/round/src/lib.rs:461-463 | In a sound Cleared round the winning bid is positive and within the winner's own escrow. |
| Settlement.SettleChecksPass | contracts/round/src/lib.rs:447-470 | From every reachable Cleared state all guard and plan checks pass. |
| Settlement.SettleCannotFail | contracts/round/src/lib.rs:417-515 | From every reachable Cleared state `settle` succeeds, pays each party exactly once and leaves nothing locked. |
| Settlement.RefundCannotFail | contracts/round/src/lib.rs:715-757 | Wherever `clear` or `void` reaches the refund of a reachable live round, it succeeds and returns every escrow. |
| Flows.NetOfSettle | contracts/round/src/lib.rs:472-492 | Net effect of a settlement on each account: escrow back, winning bid from winner to operator. |
| Flows.NetOfRefund | contracts/round/src/lib.rs:735-745 | Net effect of a void on each account: its escrow back. |
| Flows.NetOfCommit | contracts/round/src/lib.rs:203-215 | Net effect of a commit: the overwritten escrow back, the new one out. |
| Flows.EquityStep | contracts/round/src/lib.rs:188-541 | No call changes anybody's escrow still held plus tokens received for a round, less awards. |
| Flows.NetFlowsOverRun | contracts/round/src/lib.rs:197-211 | Over a whole run: before the end each bidder is out exactly what is held, after a settlement only the winning bid has moved, after a void everybody is even. |
| Flows.LogIsTruthful | contracts/round/src/lib.rs:203-215 | On any storage, no call moves a token it does not log or logs one it does not move. |
| Lifecycle.CallsStayInTheirRound | contracts/round/src/lib.rs:139-541 | A call on one round leaves every other round untouched and makes no transfer for it. |
| Lifecycle.TerminalRefuses | contracts/round/src/lib.rs:350-541 | Every call on a Settled or Voided round is refused. |
| Lifecycle.TerminalAbsorbs | contracts/round/src/lib.rs:427-541 | Over any further run a finished round never changes and no token moves for it. |
| Lifecycle.ClearCannotFail | contracts/round/src/lib.rs:350-415 | Past the reveal deadline `clear` succeeds from every reachable Revealing state: a winner, or a drained void. |
| Lifecycle.NoStrandedEscrow | contracts/round/src/lib.rs:517-541 | After the grace period at most two permissionless calls finish any reachable live round with nothing locked. |
| Lifecycle.VoidAt | contracts/round/src/lib.rs:529-531 | At a given time `void` succeeds on a reachable Open round exactly when the grace period is over and representable. |
| Lifecycle.OpenRoundVoidableIff | contracts/round/src/lib.rs:529-531 | Some later void can succeed exactly when the deadline leaves room for the grace period in a u64. |
| Lifecycle.UnvoidableRoundAccepted | contracts/round/src/lib.rs:91-111 | A concrete accepted round that has no such room. |
| Lifecycle.RevealingRoundClearableIff | contracts/round/src/lib.rs:362-366 | A reachable Revealing round can be cleared at some later time exactly when its deadline is not the last u64. |
| Interleaving.LiveRoundFinishableIff | contracts/round/src/lib.rs:350-541 | Some calls bring a reachable live round to its end, with nothing locked, exactly when its reveal deadline is not the last u64; with that deadline every run whatsoever leaves it live. |
| Scenario.AuctionRunsToItsEnd | contracts/round/src/lib.rs:69-515 | For every hash function, deadline and winning value in range, an auction from deployment reaches a sound Cleared state and then a drained Settled one, so the hypotheses above are met. |
| Scenario.AuctionIsCollisionFree | contracts/round/src/lib.rs:303-309 | For every hash function the preimages that auction offers are free of collisions, so the hypothesis of `Binding.RevealedIsSealed` is met. |
| Scenario.OverwriteIsReached | contracts/round/src/lib.rs:188-226 | A reached overwrite: 20 returned, 30 taken, one index entry, the second commitment stored, the ledger at 50 committed, 20 refunded, 30 locked. |
| Scenario.OverbidIsReached | contracts/round/src/lib.rs:314-316 | For every value above the escrow of 20: a reached open window in which the bid's own seal opens to it, the contract answers `BidExceedsEscrow`, and the throwing condition of `keepRound` holds. |
| Scenario.VoidRaceIsReached | services/keeper/src/keeper.ts:529-541 | For every hash function, a reached overdue round that others void between the pass's read and its `void`: the contract answers `RoundVoided` and the throwing condition of `voidIfStale` holds. |
| Scenario.VoidRaceThrows | services/keeper/src/keeper.ts:447-545 | `voidIfStale` run against that schedule throws. |
| Scenario.KeepRaceIsReached | services/keeper/src/keeper.ts:199-212 | The same schedule met by `keepRound`, which read the round as Open: `open_reveal` answers `RoundVoided`. |
| Scenario.KeepRaceThrows | services/keeper/src/keeper.ts:152-299 | `keepRound` run against that schedule throws. |
| Scenario.CloseRaceIsReached | services/keeper/src/keeper.ts:344-369 | A reached late auction that others clear and settle between the pass's read and its `clear`: the contract answers `AlreadySettled` and the throwing condition of `closeRound` holds. |
| Scenario.CloseRaceThrows | services/keeper/src/keeper.ts:312-409 | `closeRound` run against that schedule throws. |
| Scenario.StuckRoundIsReached | contracts/round/src/lib.rs:91-111 | With the last u64 as reveal deadline: a reached Revealing round holding escrow that no run whatsoever finishes. |
| Scenario.VoidedIsReached | contracts/round/src/lib.rs:520-541 | A run from deployment that ends Voided with every escrow returned. |
| Scenario.VoidedReceiptFails | packages/sdk/src/client.ts:984-1087 | Whoever exports it and whatever seals are stored, no receipt of that voided round verifies. |
| Scenario.ClearedReceiptVerifiesIff | packages/sdk/src/client.ts:984-1044 | The receipt of the Cleared auction verifies exactly when the client has its names and the stored seal, if any, has no empty part. |
| Guard.ChecksSay | contracts/round/src/lib.rs:447-470 | What the scan and plan checks alone rule out on arbitrary storage. |
| Guard.GuardAcceptsIff | contracts/round/src/lib.rs:675-694 | On any storage without negative escrow the guard passes exactly when every indexed bidder has a bid, the ledger is balanced, and what it locks is what the unsettled indexed bids hold. |
| Guard.SettleChecksIff | contracts/round/src/lib.rs:447-470 | On any such storage with a positive winning bid the checks of `settle` pass exactly when the guard does, nothing indexed is settled, and the winner stands in the index once with an escrow that covers the bid. |
| Guard.SettleGuardSound | contracts/round/src/lib.rs:447-505 | On arbitrary storage with non-negative escrow, if `settle` succeeds the winner was indexed once, no positive escrow twice, and tokens out = ledger locked = sum of the distinct indexed escrows. |
| Guard.RefundGuardSound | contracts/round/src/lib.rs:727-756 | The same for a refund of a whole round. |
| Progress.StepEvolves | contracts/round/src/lib.rs:69-541 | Every call moves a round along an arrow of its state machine or not at all. |
| Progress.RunEvolves | contracts/round/src/lib.rs:69-541 | Over any run statuses only move forward, terms are fixed, index, commitments and escrows freeze past Open, reveals stick. |
| Binding.RevealIndependent | contracts/round/src/lib.rs:282-345 | On any storage a reveal of one bid neither enables nor prevents a reveal of another. |
| Binding.RevealsCommute | contracts/round/src/lib.rs:282-345 | Successful reveals of different bids commute. |
| Binding.RevealOrderIrrelevant | contracts/round/src/lib.rs:282-345 | Swapping two adjacent reveals of different bids, accepted or not, changes nothing. |
| Binding.RevealsPermute | contracts/round/src/lib.rs:282-397 | Any permutation of reveals of pairwise different bids, accepted or not, gives the same state after whatever follows, and `clear` the same winner. |
| Binding.OnlyCommitReseals | contracts/round/src/lib.rs:314-325 | Only the bidder's own successful commit touches the bidder's commitment and escrow, and only a reveal of that bid its revealed value. |
| Binding.BidsRestOnCommits | contracts/round/src/lib.rs:165-226 | After any run every stored bid is the bidder's last accepted commit, made in time for that round's own Drand round. |
| Binding.RevealedValueIsBound | contracts/round/src/lib.rs:303-338 | For every hash function: a revealed value hashes, with its nonce, to the last accepted commit, made strictly before the beacon time with the matching seal round, and is within the escrow locked then; any other value or nonce hashing there is an explicit collision. |
| Binding.RevealsComeFromCalls | contracts/round/src/lib.rs:282-338 | Over any run a value on record was offered, with its nonce, by a reveal call of that run. |
| Binding.RevealedIsSealed | contracts/round/src/lib.rs:303-338 | If the preimages offered in the run, with the sealed one, are free of collisions (finitely many strings), the revealed value and nonce are the very ones the last accepted commit sealed. |
| Conservation.EvaluateEscrowConservation | packages/sdk/src/conservation.ts:92-133 | Held = refundable + payable + surplus + stranded always; conserved exactly when nothing was found, nothing is negative and nothing stranded. |
| Conservation.ProveEscrowConservationFromPages | packages/sdk/src/conservation.ts:176-376 | The imperative walk computes the report function, whatever the source answers, within its page budget; what that report means is `ConservationIssues.ReportSays` and `ConservationRefines.FaithfulReportIff`. |
| Conservation.ReadPage | packages/sdk/src/conservation.ts:229-279 | The loop over one page, issues and sums in order. |
| Conservation.NextPage | packages/sdk/src/conservation.ts:214-320 | One turn of the page loop, with every stop condition in order. |
| Conservation.FlagMissing | packages/sdk/src/conservation.ts:345-356 | One issue for each expected bidder not seen. |
| ConservationProofs.HostileSourceCannotFool | packages/sdk/src/conservation.ts:206-375 | For any answers the walk ends in its budget, and a conserved report implies distinct bidders, as many as declared, the expected set, no settled or missing state, and every held token accounted for. |
| ConservationProofs.ConservedReportPassesChecks | packages/sdk/src/conservation.ts:92-132 | With truthful bid reads, a conserved report and a matching conserved ledger: `settle`'s scan and plan checks pass exactly when no bidder with positive escrow is indexed twice. |
| ConservationProofs.FaithfulReportPassesChecks | packages/sdk/src/conservation.ts:176-376 | With faithful pages they always pass. |
| ConservationProofs.HiddenDuplicateFoolsReport | packages/sdk/src/conservation.ts:229-240 | A source that hides such a duplicate: its report is conserved and `settle` refuses the index. |
| ConservationRefines.FaithfulWalkPredictsSettle | packages/sdk/src/conservation.ts:176-376 | Over any reachable Cleared round, at any page size from 1 to 100, a faithful walk is conserved, its payable is what `settle` pays and refundable + surplus is what it refunds. |
| ConservationRefines.FaithfulWalkPredictsRefund | packages/sdk/src/client.ts:792-797 | Over any reachable Open or Revealing round, at any page size from 1 to 100, a faithful walk with nobody to pay is conserved, its refundable is the held escrow with no surplus and nothing stranded, and that is exactly what the refund of `clear` or `void` adds to the refunds. |
| ConservationRefines.FaithfulReportIff | packages/sdk/src/conservation.ts:176-376 | On any stored cell, sound or not, with a winner or without: with faithful pages the report is conserved exactly when the page size is legal, the index has at most 500 distinct entries, each with an unsettled, non-negative bid, the winner is among them and the payout fits its escrow; the report is then exact. |
| ConservationIssues.ReportSays | packages/sdk/src/conservation.ts:176-376 | For any answers at all: beside the issues known before, the report lists exactly the defects of what was answered (each code with its own meaning), and its totals are those of the answers, each bidder asked about once. |
| ConservationIssues.StopsInTime | packages/sdk/src/conservation.ts:214-320 | For any answers at all: the walk reads on exactly past a page that leaves it at 500 bidders or fewer, advances the cursor to at most 500, and is not the last one allowed (by default one more than 500 bidders fill). |
| Pager.CheckPage | packages/sdk/src/client.ts:925-951 | The checks on one page, in order, the whole page before any of it is accepted. |
| Pager.Bidders | packages/sdk/src/client.ts:916-957 | The generator run to its end yields what the walk yields, and ends. |
| Pager.AcceptsIff | packages/sdk/src/client.ts:925-951 | A page is accepted exactly when it repeats the first total, brings at most 100 new addresses, and either promises more, with something on it, the total not reached and a new 41-byte cursor, or ends exactly at the total without one. |
| Pager.RefusalsAreTrue | packages/sdk/src/client.ts:925-951 | The reason a page is rejected for is true of it. |
| Pager.StopsAtFirstFlaw | packages/sdk/src/client.ts:916-957 | The generator stops at the first page that fails its checks, with that page's error, or at the first that promises no more; each page is checked against the first total and against the addresses and cursors of all pages before it. |
| Pager.HostilePagesCannotFool | packages/sdk/src/client.ts:916-957 | Against any source it ends within the declared total, yields only whole accepted pages without repetition, and without an error exactly the declared number. |
| Pager.HonestSourceYieldsIndex | packages/sdk/src/client.ts:916-957 | From an honest source, whose cursors differ from page to page, it yields the whole index in order. |
| Checkpoint.StepKeepsFileOk | services/keeper/src/checkpoint.ts:260-296 | A recorded step is recorded once, hashes belong to recorded steps, the tail fields agree with them, no other round or step changes; on any file. |
| Checkpoint.StepEntryIs | services/keeper/src/checkpoint.ts:260-296 | What recording a step writes: the step once, last in time; its hash, or none, and no other hash touched; its time stamp, or the one before. |
| Checkpoint.PrunedIsExact | services/keeper/src/checkpoint.ts:299-325 | Dropping recorded steps removes exactly those steps and their hashes, from any entry, and keeps a well-formed one so. |
| Checkpoint.PrunedKeepsOrder | services/keeper/src/checkpoint.ts:299-325 | The steps left keep their order, and the entry its time stamp. |
| Checkpoint.PruneOneMore | services/keeper/src/checkpoint.ts:299-325 | Rollbacks compose: one more rollback drops one more step, in any order. |
| Checkpoint.Store.constructor | services/keeper/src/checkpoint.ts:386-398 | A store over a loaded cursor and the file it came from. |
| Checkpoint.OpenStore | services/keeper/src/checkpoint.ts:386-457 | Opening a path: the loaded cursor over that file, or the refusal to start. |
| Checkpoint.Load | services/keeper/src/checkpoint.ts:400-457 | A missing, blank or unparseable file gives an empty cursor; another network, contract or version, in that order, is refused; malformed entries, unknown steps and empty hashes are dropped. |
| Checkpoint.WrittenLoadsAgain | services/keeper/src/checkpoint.ts:214-249 | A file written from a well-formed cursor loads under its own binding only, with every step and hash; it comes back unchanged exactly when each entry's last completed step is last in its list. |
| Checkpoint.ReloadMisattributes | services/keeper/src/checkpoint.ts:233-242 | An entry that does not: after `reveal` is recorded again, reloading credits its hash to `clear`. |
| Checkpoint.LoadedIsTidy | services/keeper/src/checkpoint.ts:214-249 | Whatever was on disk, a loaded entry has no empty hash and its last step is the last of its list. |
| Checkpoint.LoadsIff | services/keeper/src/checkpoint.ts:400-457 | Exactly which contents load, what each refusal means, and that the loaded file holds exactly the parsed entries under the given binding. |
| Checkpoint.ParsedIs | services/keeper/src/checkpoint.ts:214-249 | What is read of one stored entry: exactly its known steps, its non-empty text hashes and its stamps. |
| Checkpoint.UpToDateRestarts | services/keeper/src/checkpoint.ts:400-496 | From a file that is up to date a restart finds exactly the steps recorded. |
| Checkpoint.Store.ListRoundIds | services/keeper/src/checkpoint.ts:503-508 | Exactly the recorded rounds, ascending. |
| Checkpoint.Store.Save | services/keeper/src/checkpoint.ts:461-483 | The file becomes the cursor as written exactly when the write succeeds, and otherwise stays as it was; every save is one write. |
| Checkpoint.Store.MarkComplete | services/keeper/src/checkpoint.ts:486-496 | Replaces the cursor by the planned one and writes it once, with the same outcome. |
| Checkpoint.Store.VerifyHashes | services/keeper/src/checkpoint.ts:520-557 | On any cursor, well formed or not: every entry loses exactly its refuted steps, in whatever order hashes enumerate; every hash is reported once looked up; it saves, once, exactly when a lookup cost a step; without a verifier nothing changes. |
| Checkpoint.Store.VerifyEntry | services/keeper/src/checkpoint.ts:528-553 | The hashes of one entry; no other round is touched, and a lookup that throws keeps its step. |
| Checkpoint.Store.Reconcile | services/keeper/src/checkpoint.ts:564-587 | On any cursor: drops and reports exactly the steps of that round neither hashed nor proved by the status, and saves, once, exactly when it drops one. |
| Checkpoint.StepsToDrop | services/keeper/src/checkpoint.ts:571-576 | The recorded steps that nothing proves, each once when each is recorded once. |
| Checkpoint.ProofsPersist | services/keeper/src/checkpoint.ts:86-92 | A status that proves a step keeps proving it along every legal move of the round. |
| Checkpoint.ProvesExactly | services/keeper/src/checkpoint.ts:86-92 | What a proving status proves: that opening, clearing or settling can never be accepted again; that the reveal window was opened or the round ended; that the round is voided. |
| Checkpoint.ReportIs | services/keeper/src/checkpoint.ts:528-553 | A step is retained exactly when its lookup confirmed or threw, and a lookup that threw is reported as missing. |
| Checkpoint.ReconcileIsExact | services/keeper/src/checkpoint.ts:564-580 | What reconciliation keeps is exactly the steps with a hash or proved by the status. |
| Checkpoint.ReconcileIsStable | services/keeper/src/checkpoint.ts:564-580 | Reconciling again, at that status or any later reachable one, drops nothing more. |
| Checkpoint.VerifyIsExact | services/keeper/src/checkpoint.ts:520-553 | What verification keeps is exactly the hashless steps and those whose lookup confirmed or threw. |
| Interleaving.Chain.GetRound | services/keeper/src/keeper.ts:167-168 | A request reads the round in exactly the state others made of the chain by then, or is lost, or the round does not exist. |
| Interleaving.Chain.Submit | services/keeper/src/keeper.ts:201-212 | A submitted call meets exactly the state others made of the chain by then, and lands, is refused with its error, or is lost. |
| Interleaving.FollowsFacts | contracts/round/src/lib.rs:69-541 | Whatever others do between two requests, the state stays sound, time moves on, every round evolves legally. |
| Interleaving.LeavesLate | contracts/round/src/lib.rs:350-541 | A live round can be cleared or voided only past its reveal deadline. |
| Interleaving.KeptTurn | contracts/round/src/lib.rs:69-541 | Across a request that changes nothing itself, a change of a round's status is the doing of that turn's others. |
| KeeperCursor.StepTrueFollows | services/keeper/src/checkpoint.ts:86-92 | Whatever others do, a true recorded step stays true. |
| KeeperCursor.CursorFollows | services/keeper/src/checkpoint.ts:86-92 | Whatever others do, a true cursor stays true. |
| KeeperCursor.RecordStep | services/keeper/src/keeper.ts:119-128 | Recording a step that is true of the chain keeps the cursor and the file true, whether or not the write succeeds; only that round's steps grow. |
| KeeperCursor.RepairLasts | services/keeper/src/checkpoint.ts:564-580 | A reconciled cursor needs no further reconciling at whatever state anybody's calls reach next. |
| KeeperLife.ShrunkIsTrue | services/keeper/src/checkpoint.ts:520-587 | Dropping steps, in memory and perhaps on disk, cannot make a cursor or the file behind it false. |
| KeeperLife.RestartKeepsSteps | services/keeper/src/checkpoint.ts:400-496 | A restart from a file that is up to date has exactly the recorded steps, no more and no fewer. |
| KeeperReveal.RevealRefused | contracts/round/src/lib.rs:292-325 | While the window is open a reveal is refused only as already revealed, not the committed bid, or above escrow. |
| KeeperReveal.RevealThrows | services/keeper/src/keeper.ts:253-274 | What a reveal of an indexed bidder past Open can throw: the round was ended (each error with its status), or the bid is above escrow in an open window. |
| KeeperReveal.RevealFailsIff | contracts/round/src/lib.rs:282-325 | Past Open, the reveal of an indexed bidder is refused for a reason the pass does not tolerate exactly when the round is cleared, settled or voided, or the window is open and the bid above its escrow. |
| KeeperReveal.RevealAnswers | contracts/round/src/lib.rs:282-345 | Exactly when each answer of `reveal` that the pass acts on comes: accepted, already revealed, not the committed bid, window closed. |
| KeeperReveal.LateThrow | services/keeper/src/keeper.ts:253-274 | After the reveal deadline a pass on a round past Open throws only if the round has been cleared, settled or voided. |
| KeeperBidders.ReadBidders | packages/sdk/src/client.ts:916-957 | The page walk against a chain that moves between pages: past Open it yields the whole index, and only a lost request stops it. |
| KeeperReveal.RevealOne | services/keeper/src/keeper.ts:227-274 | One bidder, told from the state its bid was read in and the state its reveal met. With no lost request: revealed exactly when the bid was unrevealed, its seal opens and the contract accepts; already revealed by others exactly when they did so in between; each other reason exactly when it is so; and it throws exactly when the reveal meets a cleared, settled or voided round, or an open window and a bid above its escrow. |
| KeeperReveal.ReasonTrueFollows | services/keeper/src/keeper.ts:227-274 | A reason reported for skipping a bidder stays true whatever others do. |
| KeeperReveal.RevealAll | services/keeper/src/keeper.ts:227-279 | The loop: the bidders reported revealed are, in order, exactly those whose reveal this pass made itself; every other one is skipped for a true reason, in order; a pass with only "revealed" skips has revealed every bidder it was given. |
| KeeperReveal.RevealPhase | services/keeper/src/keeper.ts:215-290 | A recorded reveal means every indexed bid is revealed, so skipping it withholds nothing. |
| KeeperReveal.OpenPhase | services/keeper/src/keeper.ts:199-212 | After opening, or being told it was done, the round is past Open and exactly that step is recorded; with no lost request it reports having opened exactly when its own call did, and throws exactly when `open_reveal` meets a settled or voided round, or an Open one too early or with a bad signature. |
| KeeperReveal.KeepRound | services/keeper/src/keeper.ts:152-299 | For every interleaving: a true cursor stays true, only this round's cursor changes, a swept round is recorded; the result is true of the chain, its `revealed` lists exactly the reveals this pass made, in order, and `openedReveal` says exactly whether it opened the window. With an open window and no lost request it throws exactly when a bid above escrow is unrevealed, else nothing is left to reveal; whenever no request is lost, each error thrown has its cause in the chain, a round read as Open whose opening then fails makes it throw, and past Open the pass itself changes no status. |
| KeeperClose.ClearPhase | services/keeper/src/keeper.ts:344-369 | With no lost request the outcome is exactly that of `clear` on the state it met: its winner, its void, the refusal skipped or thrown; `clear` is recorded exactly when done or said to be done; late and unobstructed it always is, unless others settled. |
| KeeperClose.SettlePhase | services/keeper/src/keeper.ts:379-395 | With no lost request the outcome is exactly that of `settle` on the state it met; it is recorded exactly when done or said to be done; from a cleared round an unobstructed pass always gets there. |
| KeeperClose.CursorNotAhead | services/keeper/src/keeper.ts:333-383 | A true cursor never makes the keeper skip clear or settle of a round that still needs it. |
| KeeperClose.ClearFailsIff | contracts/round/src/lib.rs:350-366 | Past Open, `clear` is refused for a reason the pass does not tolerate exactly on a settled round. |
| KeeperClose.CloseRound | services/keeper/src/keeper.ts:312-409 | For every interleaving: a true cursor stays true and never skips a step, only this round's cursor changes, what was done is recorded; the report is true of the chain, its flags say exactly which calls this pass made, and its reasons fit the status it ended on. With no lost request: a late pass ends with the round Settled or Voided even if it throws, and, late or not, it throws exactly when the round, read as Revealing past its deadline and not recorded as cleared, was settled by others before its `clear` arrived. |
| KeeperVoid.VoidRefused | contracts/round/src/lib.rs:520-541 | Why a sound round refuses `void`; a stale one only because it is no longer Open. |
| KeeperVoid.VoidFailsIff | contracts/round/src/lib.rs:520-541 | On a sound state `void` is refused for a reason the pass does not tolerate exactly when the round is Voided or Settled, or Open with a grace period beyond a u64. |
| KeeperVoid.VoidIfStale | services/keeper/src/keeper.ts:447-545 | For every interleaving: a true cursor stays true, the result is true of the chain, `voided` says exactly whether this pass's own call voided it, and each skip reason is given exactly when it applies. With no lost request: a round past its grace period is past Open afterwards even if the pass throws, and it throws exactly when the round, read as due, was voided or settled before its `void` arrived, or is Open with a grace period that does not fit a u64; in the first case by others' doing. |
| KeeperWatch.WatchRound | services/keeper/src/keeper.ts:594-623 | One tick, void then keep then close: a true cursor stays true, and the tick reports what happened and exactly the calls it made. With no lost request, a tick on a due round (past the reveal deadline, and past the grace period if still Open) leaves it Settled or Voided unless it throws; it throws only when others changed the round's status during it, and then leaves it at least Cleared. |
| KeeperWatch.WatchTicks | services/keeper/src/watch-loop.ts:186-258 | With no lost request two ticks finish a due round, whatever others do and whether or not the ticks throw. |
| KeeperLife.ResumeCheckpoint | services/keeper/src/watch-loop.ts:92-125 | For any cursor, true or not: nothing is added, only a refuted hash or a hashless step the chain did not prove is dropped, and with no lost request every step left of an existing round has a hash or is proved by the chain; a true cursor stays true. |
| KeeperLife.RunKeeper | services/keeper/src/watch-loop.ts:127-260 | From no file at all, after any ticks, passes, repairs and restarts on any rounds, with deaths, lost requests, failed writes and other callers, every recorded step is true of the chain, in memory and on disk, and no restart refuses its own file; only repair drops steps, and when every write succeeds every restart finds exactly the steps recorded before it. |
| Hex.FromHex | packages/tlock/src/commitment.ts:115-129 | Decodes exactly the even-length hex strings, with or without 0x, and says why it refuses the others. |
| Hex.AcceptsIff | packages/tlock/src/commitment.ts:115-129 | Text decodes to given bytes exactly when in lower case it is their hex, with or without the prefix. |
| Hex.HexRoundTrip | packages/tlock/src/commitment.ts:98-129 | Decoding what `toHex` wrote gives the bytes back. |
| Hex.UnhexRoundTrip | packages/tlock/src/commitment.ts:115-129 | What `fromHex` accepts is spelt back in lower case. |
| Hex.ToHexIsHex | packages/tlock/src/commitment.ts:98-102 | `toHex` writes lower-case hex that never looks prefixed. |
| Hex.ToHexInjective | packages/tlock/src/commitment.ts:98-102 | Different bytes have different hex. |
| Decimal.ValueOfNatural | packages/sdk/src/client.ts:1025-1025 | Decimal text of a round id is digits without a leading zero and reads back as the id. |
| Decimal.NaturalOfValue | packages/tlock/src/ciphertext.ts:198-201 | Digits without a leading zero are the decimal text of their value. |
| ReceiptEvents.VerifyReceiptEvents | packages/sdk/src/receipt-events.ts:106-348 | Finds exactly the listed issues, in order, and says valid exactly when none is an error; throws exactly when an entry is null. |
| ReceiptEvents.CheckEntries | packages/sdk/src/receipt-events.ts:155-234 | The per-entry loop, every complaint in order. |
| ReceiptEvents.CheckOrder | packages/sdk/src/receipt-events.ts:240-254 | The loop over neighbours, throwing at a null entry. |
| ReceiptEvents.ValidIffSound | packages/sdk/src/receipt-events.ts:106-348 | Valid means, for every log: identity as expected, entries well formed and of this round, no phase ever behind an earlier one, at most one ending, the events the status requires. |
| ReceiptReport.LogIssuesAre | packages/sdk/src/receipt-events.ts:106-348 | For every log: an issue is reported, at its event and with its severity, exactly when the defect it stands for is there. |
| ReceiptEvents.LedgersDoNotMatter | packages/sdk/src/receipt-events.ts:240-254 | For every log: changing the values of integer ledger numbers changes no issue, not the verdict, and not whether checking throws. |
| ReceiptEvents.AcceptedOrderIff | packages/sdk/src/receipt-events.ts:96-98 | An accepted log is ordered by phase and then ledger number exactly when no event has a lower number than a neighbour of its phase before it. |
| ReceiptEvents.DescendingLedgersAccepted | packages/sdk/src/receipt-events.ts:240-254 | An accepted log whose two commits come in descending ledger order. |
| ReceiptEvents.OrderedSnoc | packages/sdk/src/receipt-events.ts:240-254 | Comparing neighbours is as good as comparing all pairs. |
| ReceiptEvents.SettledLogIsBlocks | packages/sdk/src/receipt-events.ts:276-300 | For a declared Settled receipt: valid exactly when the whole log is non-empty blocks created, commit, revealing, reveal, cleared and one final settled, all well formed and of this round. |
| ReceiptEvents.ExportedLedgersAscend | packages/sdk/src/client.ts:1057-1087 | The exporter's ledger numbers ascend strictly exactly when the commit deadline is not past the reveal deadline. |
| ReceiptEvents.ExportedLedgersAre | packages/sdk/src/client.ts:1057-1087 | The six events the exporter writes, with the ledger number of each. |
| ReceiptEvents.ExportedLogValidIff | packages/sdk/src/client.ts:1057-1087 | The exporter's log passes exactly when the round is not Voided. |
| Receipt.CheckBid | packages/sdk/src/verify.ts:163-236 | Complaints and ranked value of one bid, exactly when checking its binding throws, and with which error. |
| Receipt.CheckBids | packages/sdk/src/verify.ts:158-236 | The winner loop computes the winner fold. |
| Receipt.CheckBidders | packages/sdk/src/verify.ts:130-152 | No error exactly when bidders are distinct accounts and the bid entries are theirs. |
| Receipt.CheckEvidence | packages/sdk/src/verify.ts:266-278 | No error exactly when all evidence is non-empty hex or absent. |
| Receipt.CheckSchema | packages/sdk/src/verify.ts:80-112 | No error exactly when network, fingerprint, contract, round id and rule are in order. |
| Receipt.VerifyReceipt | packages/sdk/src/verify.ts:65-286 | On any receipt: exactly when it throws, every issue in order, the recomputed winner, and valid exactly when schema, events, bidders, bindings, evidence and declared winner are in order. |
| ReceiptReport.ReceiptIssuesAre | packages/sdk/src/verify.ts:65-286 | For every receipt: an issue is reported exactly when the defect it stands for is there, and only an undeclared or uncomputable winner, an unknown status and a log that ends a round declared unfinished are mere warnings. |
| ReceiptWinner.RankedIff | packages/sdk/src/verify.ts:202-227 | A bid is ranked exactly when marked valid with a value that reads, and a nonce, if any, that decodes to 32 bytes; a bid revealed without a nonce is ranked too. |
| ReceiptWinner.ThrowsIff | packages/sdk/src/verify.ts:163-199 | Checking a bid throws exactly when value and nonce read and the value fits no i128 or no commitment is there. |
| ReceiptWinner.ComputedIsExtremal | packages/sdk/src/verify.ts:202-227 | On any receipt the recomputed winner is the earliest ranked bid that no ranked bid beats under the rule, and there is none exactly when none is ranked. |
| ReceiptWinner.WinsOnce | packages/sdk/src/verify.ts:202-227 | At most one position wins. |
| ReceiptWinner.ValidWithoutNonces | packages/sdk/src/verify.ts:163-227 | Left without its nonces a valid receipt stays valid with the same recomputed winner: bindings are checked only where a nonce is given. |
| Receipt.ExportReceipt | packages/sdk/src/client.ts:984-1044 | Exports exactly the stored round, bids and seals. |
| Receipt.ExportReadsBack | packages/sdk/src/client.ts:984-1044 | Nothing stored is lost in an export: rule, index, winner, status, id and, for every bidder, the whole bid state and seal read back from it. |
| Receipt.ComputedIsBestBid | packages/sdk/src/verify.ts:202-227 | The verifier's winner fold over an export is the contract's over the stored bids. |
| Receipt.VerifierFindsTheWinner | packages/sdk/src/verify.ts:155-263 | On every reachable round the recomputed winner is the contract's; on a cleared or settled one it is the declared winner and bid. |
| Receipt.ExportVerifiesIff | packages/sdk/src/client.ts:984-1087 | The export of a reachable round verifies exactly when the round is not Voided, bidders are accounts and stored seals are non-empty, and verifying it never throws. |
| BigEndian.DecodeEncode | packages/tlock/src/payload.ts:93-97 | A number that fits its width is recovered from its big-endian bytes. |
| BigEndian.EncodeDecode | packages/tlock/src/payload.ts:121-122 | Every byte string is the encoding of the number it spells. |
| BigEndian.EncodeAt | packages/tlock/src/payload.ts:93-97 | Byte i is the quotient by the weight of its place, modulo 256: most significant byte first. |
| BigEndian.SetBytes | packages/tlock/src/payload.ts:86-98 | `set` overwrites exactly its range of the array. |
| Commitment.I128ToBeBytes | packages/tlock/src/commitment.ts:22-33 | Refuses exactly the numbers outside i128 and otherwise writes sixteen two's-complement bytes. |
| Commitment.BeBytesToI128 | packages/tlock/src/commitment.ts:36-43 | Refuses exactly the wrong widths and otherwise reads the signed value. |
| Commitment.ValueRoundTrip | packages/tlock/src/commitment.ts:22-43 | Every i128 survives its sixteen bytes. |
| Commitment.BytesRoundTrip | packages/tlock/src/commitment.ts:22-43 | Every sixteen bytes are the encoding of the value they spell. |
| Commitment.ByteOfValue | packages/tlock/src/commitment.ts:22-33 | Byte i of an i128 is its arithmetic shift by the places below, modulo 256, negative values included. |
| Commitment.EncodeBidPreimage | packages/tlock/src/commitment.ts:47-55 | Refuses wrong nonces and values, and otherwise lays out value then nonce. |
| Commitment.PreimageBijection | packages/tlock/src/commitment.ts:47-70 | Preimages and (value, nonce) pairs correspond one to one on 48-byte strings. |
| Commitment.PreimageInjective | packages/tlock/src/commitment.ts:47-70 | One preimage names one value and nonce. |
| Commitment.CommitmentMatches | packages/tlock/src/commitment.ts:85-96 | Wrong widths are just false; otherwise it throws exactly on a value outside i128, and is true exactly when the digest is the commitment of that value and nonce. |
| Payload.EncodePayloadEnvelope | packages/tlock/src/payload.ts:68-99 | Refuses in order, and otherwise fills the buffer in place with the canonical bytes. |
| Payload.DecodeLayout | packages/tlock/src/payload.ts:81-147 | Decoding the encoding of a valid envelope gives it back, negative and absent amounts included. |
| Payload.LayoutDecode | packages/tlock/src/payload.ts:102-147 | Whatever decodes is the canonical encoding of what it decodes to. |
| Payload.EnvelopeBijection | packages/tlock/src/payload.ts:81-147 | A string decodes to an envelope exactly when the envelope is valid and the string its encoding. |
| Payload.WireFormat | packages/tlock/src/payload.ts:81-99 | Every byte of an encoded envelope at its literal offset: magic, version, flag, reserved, amount, nonce, length, payload. |
| Payload.DecodesOrSays | packages/tlock/src/payload.ts:102-147 | Exactly the canonical encodings are accepted, and every refusal names a defect the string has. |
| Auditor.EncodeBoundPayload | packages/tlock/src/auditor.ts:159-184 | Refuses in order, and otherwise fills the buffer in place with the canonical bytes. |
| Auditor.BoundBijection | packages/tlock/src/auditor.ts:159-230 | A plaintext decodes to a bound identity exactly when that identity is valid and the plaintext its encoding. |
| Auditor.WireFormat | packages/tlock/src/auditor.ts:159-184 | Every byte of a bound identity at its literal offset: magic, version, round, length, commitment, identity. |
| Auditor.DecodesOrSays | packages/tlock/src/auditor.ts:187-230 | Exactly the canonical plaintexts are accepted, and every refusal names a defect the plaintext has. |
| Auditor.EqualBytes | packages/tlock/src/auditor.ts:325-330 | True exactly on equal strings. |
| Auditor.OpenIdentityForBidder | packages/tlock/src/auditor.ts:280-306 | Checks the caller's context, the framing, the box, the payload, the round and the commitment in that order. |
| Auditor.OpensIff | packages/tlock/src/auditor.ts:280-306 | An identity comes back exactly when the blob decrypts, under the caller's key, to its canonical binding to the caller's round and commitment. |
| Auditor.RefusalsAreTrue | packages/tlock/src/auditor.ts:280-306 | Every refusal to open a blob names a defect of the request or of what the blob holds. |
| Auditor.SwappedBlobDisclosesNothing | packages/tlock/src/auditor.ts:280-306 | With an ideal sealed box a blob opened for another round or commitment gives the stated error and no identity, and for its own gives the identity. |
| AgeHeader.ParseAgePayload | packages/tlock/src/ciphertext.ts:178-238 | The line-taking parser, with its consumed-bytes counter, computes the accepted header or the stated rejection. |
| AgeHeader.ParserRecovers | packages/tlock/src/ciphertext.ts:178-238 | For every round in 1..2^53-1, chain hash, stanza, MAC and body, newlines included, the parser recovers round and hash and plaintext length = body length - 32. |
| AgeHeader.AcceptsIff | packages/tlock/src/ciphertext.ts:178-238 | The accepted payloads are exactly the laid-out ones, and the header is theirs. |
| AgeHeader.RefusalsAreTrue | packages/tlock/src/ciphertext.ts:178-238 | Every rejection of an age payload names a defect it has. |
| AgeHeader.JoinSplit | packages/tlock/src/ciphertext.ts:181-186 | Splitting into lines and joining them loses nothing. |
| AgeHeader.SplitJoined | packages/tlock/src/ciphertext.ts:181-186 | Joined lines followed by any text split back into the lines and the split of that text. |
| Armor.ArmorRecovers | packages/tlock/src/ciphertext.ts:124-162 | Armored base64 lines no wider than 64, with up to 1024 blanks around, parse as the payload they decode to. |
| Armor.AcceptsIff | packages/tlock/src/ciphertext.ts:124-162 | Accepted exactly: at most 1024 blanks around header, lines and footer, no line over 64 characters and the last under 64, the lines together padded base64 of a length divisible by four, decoding to an age payload with that header. |
| Armor.PaddedIff | packages/tlock/src/ciphertext.ts:56-57 | The padded base64 the armor accepts is base64 characters followed by at most two padding characters, and nothing else. |
| Armor.RefusalsAreTrue | packages/tlock/src/ciphertext.ts:124-162 | Every rejection of the armor names a defect the text has. |
| Armor.SealRecovers | packages/tlock/src/ciphertext.ts:124-238 | From armor to header in one step. |

## Left out

- Commitment.CommitmentMatches: collects byte differences as a boolean where the code ors their xor, so timing is not captured.
- Auditor.EqualBytes: the same.
- Receipt.VerifyReceipt: issues carry severity and code (and the event checks the event's index); messages and paths are not modelled.
- Receipt.ExportReceipt: reads one state of the chain (that the reads of a finished round agree at any later time is `Lifecycle.TerminalAbsorbs`), and leaves out the fields no verifier step reads: export time, item reference, auditor key, operator, seal round, deadlines and winning value.
- KeeperReveal.KeepRound: polling and sleeping for the beacon are the input `Beacon`; what others do meanwhile is part of the schedule.
- KeeperVoid.VoidIfStale: the settlement guard is not part of this model; the watch loop passes none (`services/keeper/src/watch-loop.ts:151`), so the tick's `guardSkip` stays unset.
- KeeperLife.RunKeeper: covers any sequence of ticks, passes, repairs and restarts; round discovery, the queue, leases and shutdown of the watch loop, which decide that sequence, are not part of this model.
- Checkpoint.Load: the file is given as parsed JSON keyed by round number; JSON text, the backup of a corrupt file and log lines are not modelled.
- Keeper refusals are matched by the exact contract error; the code looks for the error's name inside the diagnostic text of whatever was thrown.
- Clock and lifetimes: storage TTLs, temporary-storage expiry and instance bumps; a seal that may have expired is an input of the keeper and the exporter.
- Contents that nothing modelled reads: `item_ref`, `asset_config`, ciphertext, auditor blob and auditor key bytes (only their lengths are checked), and the events the contract publishes.
- Authorisation beyond the contract's own address, the already-initialised check of the constructor, and the configuration getter.
- Storage keys: the maps for rounds, bid states and ledgers are grouped into one cell per round id. The contract's `bidders_page` is not part of this model: `Interleaving.Chain.GetBiddersPage` answers with consecutive slices of the index under distinct 41-byte cursors.
- Cryptography: the BLS check, hash-to-curve, tlock, X25519, XChaCha20 and HKDF are inputs; SHA-256 is an uninterpreted function.
- Receipt bidders that are not well-formed addresses, prototype properties of JavaScript objects, and the loss of precision of the exporter's ledger numbers beyond 2^53.
- Armor lengths count characters; JavaScript counts UTF-16 units, which differ only on text that is rejected anyway, possibly for another reason.
- The client's `proveEscrowConservation` status table for `void`; the paged walk it calls is modelled.
- Non-integer page sizes and cursors in the escrow walk; `Pager` does model non-integer totals.
- RPC submission, preflight checks, network and manifest checks, the x402 client and server, command-line scripts, the web interface, mandates, redaction and appraisal.
