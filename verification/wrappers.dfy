/** Optional values and error results, standing in for JavaScript's
    `undefined`/`null` and for thrown errors. */
module Wrappers {

  /** `None` plays the part of a missing (`undefined` or `null`) value. */
  datatype Option<+T> = None | Some(value: T) {

    /** The contained value, or `default` when absent. */
    function GetOr(default: T): T
    {
      match this
      case Some(v) => v
      case None => default
    }

    /** JavaScript's `a ?? b` on optional values: `this` when present, otherwise `other`. */
    function OrElse(other: Option<T>): Option<T>
    {
      match this
      case Some(_) => this
      case None => other
    }
  }

  /** A computation that either produces a value or fails with a message. */
  datatype Result<+R> = Success(value: R) | Failure(error: string)
}
