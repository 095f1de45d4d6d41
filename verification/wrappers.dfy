/** Optional values and success-or-error results, used for the optional form fields of the
    update routes and for the outcome of every route. */
module Wrappers {

  datatype Option<+T> = None | Some(value: T)

  /** The outcome of a route: a value, or the error the route raises instead. */
  datatype Result<+T, +E> = Ok(value: T) | Err(error: E)
}
