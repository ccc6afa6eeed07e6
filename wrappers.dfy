/** Optional values and results with an error, standing in for C# nulls and exceptions. */
module Wrappers {

  /** A value that may be absent (a C# reference or nullable that may be null). */
  datatype Option<+T> = None | Some(value: T) {

    /** The value, or `default` when absent: the C# `??` operator. */
    function GetOr(default: T): T {
      match this
      case Some(v) => v
      case None => default
    }
  }

  /** The outcome of an operation that can fail with an error of type E. */
  datatype Result<+R, +E> = Success(value: R) | Failure(error: E)
}
