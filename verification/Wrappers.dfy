/** The optional and fallible results shared by every component. */
module Wrappers {
  datatype Option<+T> = None | Some(value: T)

  datatype Result<+R, +E> = Success(value: R) | Failure(error: E)

  /** Instants, in microseconds. A later instant is a larger number. */
  type Time = int

  /** A nil deadline never lies after any instant. */
  predicate After(deadline: Option<Time>, now: Time) {
    deadline.Some? && deadline.value > now
  }
}
