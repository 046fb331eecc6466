/** Option and Result, used for "no match" and for the request guards' errors. */
module Wrappers {
  datatype Option<+T> = None | Some(value: T)

  datatype Result<+T, +E> = Success(value: T) | Failure(error: E)
}

/** The error an endpoint raises for a request it refuses: an HTTP status code and a detail message. */
module Http {
  datatype HttpError = HttpError(status: nat, detail: string)
}
