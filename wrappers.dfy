/** Option and Result: the absent value and the thrown error of the script, as values. */
module Wrappers {

  datatype Option<+T> = None | Some(value: T)

  /** `Failure` stands for an exception the JavaScript runtime would throw. */
  datatype Result<+T, +E> = Success(value: T) | Failure(error: E)
}
