/** Failure-carrying values shared by the whole model: a JavaScript value that may be
    `null`/`undefined` is an Option, a promise that may reject is a Result. */
module Wrappers {

  datatype Option<+T> = None | Some(value: T)

  datatype Result<+T, +E> = Success(value: T) | Failure(error: E)
}
