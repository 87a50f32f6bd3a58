// Optional values and the error returns of the modelled operations.
module Wrappers {

  datatype Option<+T> = None | Some(value: T)

  datatype Result<+T> = Ok(value: T) | Err(error: Error)

  // One constructor per error return that the model distinguishes.
  datatype Error =
    | MissingPrivateKey
    | OutOfRange
    | NoInverse
    | DrawsExhausted
    | BadThreshold
    | TooFewPlayers
    | NoShares
    | NotEnoughShares
    | WrongDeckSize
    | BadCommitment
    | BadProof
    | CiphertextMismatch
    | NotACard
    | BadIndex
    | EmptyPlayerID
    | EmptySession
    | UnknownPlayer
    | AlreadyStarted
    | NotStarted
    | NotComplete
    | WrongHand
    | WrongCardIndex
    | WrongSeat
    | LocalMessage
    | ConflictingDuplicate
    | ConflictingBuffered
    | NotOurTurn
    | SequenceInProgress
    | NoJob
    | HolesNotDone
    | WrongStreet
    | AlreadyRevealed
    | LengthMismatch
    | EmptySequence
    | NoPeelers
}
