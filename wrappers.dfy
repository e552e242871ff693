/** Option and Result, the two failure-carrying datatypes the rest of the model uses:
    Option for JavaScript's "a value or undefined" (Array.prototype.find), Result for
    "a value, or the exception the code throws". */
module Wrappers {

  datatype Option<+T> = None | Some(value: T)

  datatype Result<+R, +E> = Success(value: R) | Failure(error: E)
}
