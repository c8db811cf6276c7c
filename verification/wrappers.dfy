/** Failure-carrying result types used by the contracts, the builders and the flows. */
module Wrappers {

  /** A value that may be absent (a lookup with no hit). */
  datatype Option<+T> = None | Some(value: T)

  /** Either a computed value or the error that stopped the computation. */
  datatype Result<+T, +E> = Success(value: T) | Failure(error: E)

  /** Pass, or the first failure found (a verdict with no payload). */
  datatype Outcome<+E> = Pass | Fail(error: E)
}
