/** Option stands for a C# reference that may be null; Reply stands for the
    result of a call that either returns normally or throws. */
module Wrappers {

  /** A value that may be absent: `None` is C#'s `null`. */
  datatype Option<+T> = None | Some(value: T)

  /** The exceptions the modelled code can raise or catch. */
  datatype Error =
    | Unreachable        // the Redis connection is down (RedisConnectionException and friends)
    | WrongType          // a Redis list command met a string, or a string command met a list
    | DecodeFailure      // the stored text does not deserialize to the requested type
    | InvalidCast        // an ASP.NET cache item is not a CacheEntry
    | ArgumentNull       // Regex.Replace was handed a null input
    | ArgumentOutOfRange // Substring past the end of a string
    | InvalidOperation   // settings initialised twice

  /** The outcome of a call: it returns `value`, or throws `error`.
      Failure-compatible, so `:-` propagates an exception to the caller. */
  datatype Reply<+T> = Ok(value: T) | Fault(error: Error) {

    predicate IsFailure() {
      Fault?
    }

    function PropagateFailure<U>(): Reply<U>
      requires Fault?
    {
      Fault(error)
    }

    function Extract(): T
      requires Ok?
    {
      value
    }
  }
}
