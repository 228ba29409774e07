/** Drand round arithmetic and the seal-round check. */
module Drand {
  import opened Prelude
  import opened RoundTypes

  /** Publication time of a Drand round; `None` when it is round zero or does not fit a u64. */
  function CheckedTimeOfRound(config: Config, round: u64): Option<u64> {
    if round == 0 then None
    else if config.period * round >= TWO_64 then None
    else if config.genesis + config.period * round >= TWO_64 then None
    else Some(config.genesis + config.period * round)
  }

  function ValidateSealRound(round: Round, sealRound: u64): Result<(), Error> {
    if sealRound == 0 then Err(InvalidSealRoundZero)
    else if sealRound == round.revealRound then Ok(())
    else if sealRound > round.revealRound then Err(SealRoundTooLate)
    else Err(SealRoundTooEarly)
  }
}
