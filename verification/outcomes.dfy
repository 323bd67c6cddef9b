/** Revert reasons of the pool and the shapes in which an operation reports them. */
module Outcomes {

  /** Why a pool operation reverted. */
  datatype Error =
    | SmallAmount   // "Funding/small-amount": a deposit or sponsorship of zero
    | NoFunds       // "Funding/no-funds": a withdrawal the depositor's balance cannot cover
    | Overflow      // a checked uint256 operation whose true result does not fit
    | Unauthorized  // a restricted operation called by someone other than the iHelp token

  /** The result of an operation that returns a value. */
  datatype Result<T> = Ok(value: T) | Err(error: Error)

  /** The result of an operation that returns nothing. */
  datatype Outcome = Pass | Fail(error: Error)

  datatype Option<T> = None | Some(value: T)
}
