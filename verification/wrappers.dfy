/** Small failure-carrying and presence-carrying datatypes shared by every module. */
module Wrappers {

  /** A value that may be absent (Python `None`, JavaScript `null`). */
  datatype Option<+T> = None | Some(value: T) {
    /** The carried value, or `default` when there is none. */
    function GetOr(default: T): T {
      match this
      case Some(v) => v
      case None => default
    }
  }

  /** The outcome of an operation that can fail with an error value. */
  datatype Result<+R, +E> = Success(value: R) | Failure(error: E)

  /** Whether a key is present in a JSON request body, and with which value.
      `Present(None)` is a key sent with the value `null`. */
  datatype Field<+T> = Absent | Present(value: T) {
    /** The new value of a field that is overwritten only when the key is present. */
    function Or(current: T): T {
      match this
      case Present(v) => v
      case Absent => current
    }
  }

  /** `x || ''` for a nullable string: `null` and `''` both become `''`. */
  function OrEmpty(s: Option<string>): (r: string)
    ensures s.Some? ==> r == s.value
    ensures s.None? ==> r == ""
  {
    s.GetOr("")
  }
}
