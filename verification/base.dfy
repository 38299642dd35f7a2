/** Small shared vocabulary: optional values and results. */
module Base {

  /** A value that may be missing: SQL NULL, or a `fetchone()` that found no row. */
  datatype Option<+T> = None | Some(value: T) {

    /** The value when present, otherwise `default` (SQL `COALESCE`). */
    function GetOr(default: T): (r: T)
      ensures Some? ==> r == value
      ensures None? ==> r == default
    {
      match this
      case Some(v) => v
      case None => default
    }
  }

  /** The outcome of an operation that either succeeds with a value or raises an error. */
  datatype Result<+T, +E> = Ok(value: T) | Err(error: E)
}
