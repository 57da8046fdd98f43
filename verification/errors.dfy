/** Failure kinds of the ledger and the result type its mutations return. */
module Errors {

  /** Why a mutation was refused. A refused mutation leaves the ledger untouched. */
  datatype Error =
    | InsufficientBalance           // a debit would drive a balance below zero
    | DelegationLimitExceeded       // a new delegatee would exceed the per-account fan-out
    | DelegationPercentageExceeded  // outgoing delegations would exceed 100%
    | NonMonotonicIndex             // a write at an index older than the ledger's clock

  datatype Result<+T> = Ok(value: T) | Err(error: Error)
}
