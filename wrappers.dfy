/** Option and Result values used wherever the source has `null`, `undefined`
    or a thrown error. */
module Wrappers {

  datatype Option<+T> = None | Some(value: T) {

    /** The value, or `default` when there is none (the source's `x ?? d`). */
    function GetOr(default: T): T {
      match this
      case Some(v) => v
      case None => default
    }
  }

  /** Returned by an operation that either yields a value or throws. */
  datatype Result<+T> = Ok(value: T) | Err(message: string)

  /** JavaScript's `n || 0` on a number that may be null or undefined: a
      missing value (and 0 itself) gives 0, any other value is kept. */
  function OrZero(n: Option<int>): (r: int)
    ensures n.None? ==> r == 0
    ensures n.Some? ==> r == n.value
  {
    if n.Some? && n.value != 0 then n.value else 0
  }
}
