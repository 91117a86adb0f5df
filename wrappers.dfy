/** Optional values and the Python exceptions the peak-set code can raise, as values. */
module Wrappers {

  datatype Option<+T> = None | Some(value: T)

  /** The built-in exceptions the modelled code raises on misuse. */
  datatype Exception = TypeError | IndexError

  /** Either a returned value or a raised exception. */
  datatype Result<+T> = Ok(value: T) | Err(error: Exception)

  /** Absolute value of a real, Python's `abs`. */
  function Abs(x: real): (r: real)
    ensures r >= 0.0 && (r == x || r == -x)
  {
    if x < 0.0 then -x else x
  }

  /**
   * The position that Python's `s[i]` reads in a sequence of length n:
   * negative indices count from the end, anything outside [-n, n) raises IndexError.
   */
  function PyIndex(n: nat, i: int): (r: Option<nat>)
    ensures r.Some? <==> -(n as int) <= i < n
    ensures r.Some? ==> r.value < n && (r.value == i || r.value == i + n)
  {
    if 0 <= i < n then Some(i) else if -(n as int) <= i < 0 then Some(i + n) else None
  }
}
