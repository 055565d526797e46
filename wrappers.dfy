/** Failure-carrying values shared by the route handlers. */
module Wrappers {

  /** A value that may be absent: `None` stands for JavaScript's
      `undefined`/`null`, or for a request field of the wrong type. */
  datatype Option<+T> = None | Some(value: T)

  /** The outcome of a route handler: a response body, or the error
      message the handler answers with instead. */
  datatype Result<+T> = Success(value: T) | Failure(error: string)
}
