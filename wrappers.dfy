/** Option and Result, the two failure-carrying datatypes the model uses in place of
    JavaScript's `undefined` and thrown exceptions. */
module Wrappers {

  /** `None` stands for JavaScript's `undefined` (a missing key, a missing row). */
  datatype Option<+T> = None | Some(value: T)

  /** `Failure` stands for a thrown error; `Success` for a normal return. */
  datatype Result<+T, +E> = Success(value: T) | Failure(error: E)
}
