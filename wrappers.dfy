/** Failure-carrying results used where the library reports a fault. */
module Wrappers {

  /** A value, or the fault that stopped the operation. */
  datatype Result<+R, +E> = Success(value: R) | Failure(error: E)

  /** Success or the fault that stopped an operation that yields no value. */
  datatype Outcome<+E> = Pass | Fail(error: E)
}
