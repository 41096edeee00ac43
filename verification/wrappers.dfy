/** Optional values and exception-carrying results, in the failure-compatible
    style so that `:-` can propagate a raised exception the way Python unwinds
    out of a `try` block.
 */
module Wrappers {

  datatype Option<+T> = None | Some(value: T) {

    /** Python's `a or b` where a missing or falsy value is `None`: the first
        present value wins. */
    function Or(other: Option<T>): Option<T> {
      match this
      case Some(_) => this
      case None => other
    }
  }

  /** `Failure(text)` stands for a raised exception whose `str()` is `text`. */
  datatype Result<+R, +E> = Success(value: R) | Failure(error: E) {

    predicate IsFailure() {
      Failure?
    }

    function PropagateFailure<U>(): Result<U, E>
      requires Failure?
    {
      Failure(error)
    }

    function Extract(): R
      requires Success?
    {
      value
    }
  }
}
