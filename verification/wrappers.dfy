/** Failure-carrying datatypes shared by the whole model: an optional value
    (a Python `None` or a found object) and a result that is either a value
    or the fault a Python `raise` would have carried. */
module Wrappers {

  datatype Option<+T> = None | Some(value: T)

  datatype Result<+R, +E> = Success(value: R) | Failure(error: E)
}
