/** Result types standing in for the exceptions thrown by the action.
    Every error the action raises is an `Error` whose message is a string,
    so the failure side always carries that message. */
module Wrappers {

  datatype Option<+T> = None | Some(value: T)

  /** A computation that either yields a value or fails with a message. */
  datatype Result<+T> = Ok(value: T) | Err(error: string)

  /** A computation with no value (a `void` function) that may fail with a message. */
  datatype Outcome = Pass | Fail(error: string)

  /** Re-raising a caught error as `new Error(prefix + cause)`: a value passes
      through unchanged and a failure keeps its cause behind the prefix. */
  function WithPrefix<T>(prefix: string, r: Result<T>): (w: Result<T>)
    ensures w.Ok? <==> r.Ok?
    ensures w.Ok? ==> w.value == r.value
    ensures w.Err? ==> w.error == prefix + r.error && w.error[|prefix|..] == r.error
  {
    match r
    case Ok(v) => Ok(v)
    case Err(cause) => Err(prefix + cause)
  }
}
