/** Optional and fallible values shared by the frontend and backend models. */
module Basics {

  /** A value that may be absent: JavaScript `null`/`undefined`, a Java null reference. */
  datatype Option<+T> = None | Some(value: T)

  /** The outcome of a call that either returns a value or throws/rejects with an error. */
  datatype Result<+T, +E> = Ok(value: T) | Err(error: E)

  /** A point in time (`java.time.Instant`), supplied by the caller in place of `Instant.now()`. */
  type Instant = int

  /** JavaScript `s || undefined` for a string: the empty string becomes absent. */
  function NonEmpty(s: string): (r: Option<string>)
    ensures r.None? <==> s == []
    ensures r.Some? ==> r.value == s
  {
    if s == [] then None else Some(s)
  }
}
