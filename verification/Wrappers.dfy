/** Optional values and fallible results. */
module Wrappers {

  datatype Option<+T> = None | Some(value: T)

  /** The errors the modelled operations can return. */
  datatype Error =
    | DoubleSign
    | DuplicateHeight
    | DuplicateSignRecord
    | KeyNameNotFound
    | KeyNotUnlocked
    | KeyNotInKeyring
    | AlreadyUnlocked
    | AlreadyStarted
    | KeyMismatch
    | SignFailed
    | Database
    | NilArgument
    | KeyTooShort
    | ZeroInterval
    | LengthMismatch
    | ProofNotFound
    | QueryFailed
    | NegativeDelay
    | StartAboveTarget
    | AlreadyCommitted
    | SubmissionFailed
    | RootMismatch
    | TooManyValues
    | NotFound
    | EmptyBatch

  datatype Result<+T> = Ok(value: T) | Err(error: Error)
}
