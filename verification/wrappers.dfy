/** The optional value and the success-or-error value used for Python's
    `None` results and the request's error path. */
module Wrappers {

  datatype Option<T> = None | Some(value: T)

  datatype Result<T, E> = Success(value: T) | Failure(error: E)
}
