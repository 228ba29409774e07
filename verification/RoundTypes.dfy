/** The Round contract's data: one cell of storage per round id, the token's balances and the host clock. */
module RoundTypes {
  import opened Prelude

  /** A Stellar account (`G…`) or a contract (`C…`). */
  datatype Address = Account(id: nat) | Contract(id: nat)

  /** The Round contract's own address. It never invokes itself, so it can authorise nothing. */
  const SELF: Address := Contract(0)

  datatype Status = Open | Revealing | Cleared | Settled | Voided

  datatype ClearingRule = HighestBid | LowestBid

  /** Contract error codes; `Trap` is a host trap (overflow, failed transfer, missing authorisation). */
  datatype Error =
    | RoundNotFound | BidNotFound
    | CommitClosed | CommitNotClosed | CommitDeadlineAfterReveal
    | RevealNotOpen | RevealAlreadyOpen | RevealWindowClosed | RevealStillOpen
    | NotCleared | AlreadyCleared | AlreadySettled | RoundVoided | NotVoidable | WrongStatus
    | InvalidDrandSignature | HashMismatch | AlreadyRevealed | PayloadTooLarge
    | InvalidAmount | BidExceedsEscrow | DeadlineInPast | NoValidBids | RoundFull
    | EscrowNotConserved
    | SealRoundTooEarly | SealRoundTooLate | InvalidSealRoundZero
    | Trap

  datatype Config = Config(genesis: u64, period: u64)

  datatype Round = Round(
    operator: Address,
    revealRound: u64,
    rule: ClearingRule,
    commitDeadline: u64,
    revealDeadline: u64,
    status: Status,
    bidders: seq<Address>,
    winner: Option<Address>,
    winningBid: i128)

  datatype BidState = BidState(
    commitment: Bytes32,
    escrow: i128,
    revealedValue: Option<i128>,
    revealedNonce: Option<Bytes32>,
    valid: bool,
    settled: bool)

  datatype EscrowLedger = EscrowLedger(committed: i128, payout: i128, refunds: i128, locked: i128)

  /** What `scan_bidder_index` reports. */
  datatype EscrowIndex = EscrowIndex(locked: i128, settled: nat)

  /** Everything stored under one round id: the round, its bid states, its escrow ledger. */
  datatype Cell = Cell(round: Round, bids: map<Address, BidState>, ledger: Option<EscrowLedger>)

  /** One token transfer made by the contract, tagged with the round it was made for. */
  datatype Transfer = Transfer(round: nat, from: Address, to: Address, amount: i128)

  /**
   * The world a call sees. `donated` counts what others sent to the contract outside any call;
   * `log` lists the contract's own transfers. Neither is read by any entry point.
   */
  datatype State = State(
    config: Config,
    sha: seq<byte> -> Bytes32,
    now: u64,
    counter: u64,
    cells: map<nat, Cell>,
    balances: map<Address, nat>,
    donated: nat,
    log: seq<Transfer>)

  const MAX_CIPHERTEXT: nat := 4096
  const MAX_AUDITOR_BLOB: nat := 2048
  const MAX_AUDITOR_PUBKEY: nat := 1024
  const MAX_BIDDERS: nat := 500
  const VOID_GRACE: nat := 3600
}
