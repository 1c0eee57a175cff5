/** Failure-carrying datatypes shared by the model: a JavaScript `null` or
    `undefined` becomes `None`, a thrown error becomes `Failure`. */
module Wrappers {

  datatype Option<+T> = None | Some(value: T)

  datatype Result<+R, +E> = Success(value: R) | Failure(error: E)
}
