/** Optional values and fallible results, shared by every module of the model. */
module Results {

  /** A value that may be absent: `undefined` / `null` in TypeScript, `None` in Python. */
  datatype Option<+T> = None | Some(value: T) {

    /** The value, or `default` when absent (the `x ?? default` / `dict.get(k, default)` idiom). */
    function GetOr(default: T): T {
      match this
      case Some(v) => v
      case None => default
    }
  }

  /** The outcome of a repository operation that can throw. */
  datatype Result<+T, +E> = Ok(value: T) | Err(error: E)
}
