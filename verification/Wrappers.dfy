/** Option, Result and Outcome: the error paths of the handlers as values. */
module Wrappers {

  datatype Option<+T> = None | Some(value: T)

  /** A computation that produces a value or fails with an error. */
  datatype Result<+R, +E> = Success(value: R) | Failure(error: E)

  /** A check that passes or fails with an error (a Python function returning None or raising). */
  datatype Outcome<+E> = Pass | Fail(error: E)
}

/** The conditions the core raises. */
module Errors {

  datatype Error =
    /** fastapi.HTTPException with its status code and detail text. */
    | HttpError(status: int, detail: string)
    /** sqlalchemy's NoResultFound, raised by `.one()` and `get_one` on a missing row. */
    | NoResultFound
    /** ValueError("Invalid color"). */
    | ValueError(message: string)
}
