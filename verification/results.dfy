/**
 Small failure-carrying datatypes shared by the mixin models: an attribute
 lookup that may find nothing, and an operation that either returns a value
 or raises an error.
 */
module Results {

  /** The result of a lookup that may find nothing. */
  datatype Option<+T> = None | Some(value: T)

  /** A call that either returns `value` or raises `error`. */
  datatype Result<+T, +E> = Success(value: T) | Failure(error: E)
}
