/** Failure-carrying values shared by the modules of the model. */
module Wrappers {

  datatype Option<+T> = None | Some(value: T)

  /** The value of a settled computation or the message of the error it raised. */
  datatype Result<+R> = Success(value: R) | Failure(error: string)

  /** Outcome of a side effect that returns nothing useful but may raise. */
  datatype Outcome = Pass | Fail(message: string)

  /** Bytes of a file or an HTTP body. */
  type Bytes = seq<bv8>
}
