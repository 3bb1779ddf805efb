/**
 * Optional values, standing for Python's `None` (and, where a module reads an empty cell as
 * absent rather than as the text "nan", for pandas' NaN),
 * and the outcome of a model validator, which either keeps the assigned value or raises.
 */
module Wrappers {
  datatype Option<T> = None | Some(value: T)
  {
    function UnwrapOr(default: T): (r: T)
      ensures this.Some? ==> r == value
      ensures this.None? ==> r == default
    {
      match this
      case Some(v) => v
      case None => default
    }
  }

  /** A SQLAlchemy `@validates` hook: the value is stored, or `ValueError` is raised with a message. */
  datatype Checked<T> = Kept(value: T) | Raised(message: string)
}
