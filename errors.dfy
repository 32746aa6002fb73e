/**
 * The contract's error type (error.rs, extended with the variants the
 * entry points raise) and a failure-compatible `Result`.
 */
module Errors {
  import opened Uint

  /** `OverflowOperation` of cosmwasm's `OverflowError`. */
  datatype OverflowOp = Add | Sub

  /** Which list a `StdError::NotFound` refers to. */
  datatype Lookup = ProposalId | ItemId

  /** The three messages `TokenInstantiateInfo::validate` can give. */
  datatype FormatError = NameFormat | SymbolFormat | DecimalsTooLarge

  /**
   * Why a call panicked. A panic aborts the whole call, which the host
   * rolls back like any error, so it is modelled as one.
   */
  datatype Panic =
    | AddOverflow       // `Uint128 + Uint128` beyond 2^128 - 1
    | RemoveOutOfRange  // `Vec::remove` with an index past the end

  datatype ContractError =
    | Overflow(operation: OverflowOp, operand1: nat, operand2: nat)  // StdError::Overflow
    | NotFound(kind: Lookup, id: nat)                                // StdError::NotFound
    | ParseErr                                                       // StdError::ParseErr
    | GenericErr(format: FormatError)                                // StdError::GenericErr
    | Unauthorized
    | InvalidQuorum
    | InsufficentProposalFunds(needed: Uint128, got: Uint128)
    | InvalidZeroAmount
    | VoteOnCompletedProposal
    | Panicked(reason: Panic)

  datatype Option<T> = None | Some(value: T)

  datatype Result<T> = Ok(value: T) | Err(error: ContractError) {

    predicate IsFailure() {
      Err?
    }

    function PropagateFailure<U>(): Result<U>
      requires Err?
    {
      Err(error)
    }

    function Extract(): T
      requires Ok?
    {
      value
    }

    /** The same outcome carrying `u` instead of the success value. */
    function Replace<U>(u: U): Result<U> {
      if Ok? then Ok(u) else Err(error)
    }
  }

  /**
   * The state the host keeps after a call: the new state when the call
   * succeeded, the state before it when it failed (the host rolls back
   * every write of a failed call).
   */
  function Commit<S>(before: S, r: Result<S>): S {
    if r.Ok? then r.value else before
  }
}
