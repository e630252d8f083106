/** Optional values and fallible results, as the TypeScript code expresses them with
    `undefined`/`null` and with thrown exceptions. */
module Wrappers {

  /** A value that may be missing (`undefined` or `null` in the source). */
  datatype Option<+T> = None | Some(value: T) {
    /** The value, or `default` when there is none (the source's `?? default`). */
    function GetOr(default: T): T {
      match this
      case Some(v) => v
      case None => default
    }
  }

  /** The outcome of a call that may throw: its value, or the error it rejected with. */
  datatype Outcome<+T> = Ok(value: T) | Err(message: string)
}
