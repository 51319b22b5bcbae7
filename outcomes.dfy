/** Option and Result, used for PHP's nullable values and for thrown exceptions. */
module Outcomes {

  datatype Option<+T> = None | Some(value: T)

  /** `Failure(message)` stands for a thrown exception carrying `message`. */
  datatype Result<+T, +E> = Success(value: T) | Failure(error: E)
}
