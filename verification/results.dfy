/** Failure-carrying values shared by the whole model.

    The Python bot signals every failure with an exception; here each exception the core can
    raise is an `Error` value, and an operation that may raise returns a `Result`. */
module Results {

  datatype Option<+T> = None | Some(value: T)

  /** The exceptions of the core, by origin. */
  datatype Error =
      /** HTTP status other than 200, or a 200 reply whose `code` is not the success code;
          the text is the raw response body ("API request failed: <text>"). */
    | ApiError(responseText: string)
      /** A transport exception from the HTTP session ("Request error: <cause>"). */
    | RequestError(cause: string)
      /** A 200 reply whose body is not a JSON object: the HTTP library's JSON decoding error
          for a body that is not JSON, an `AttributeError` for JSON of another kind. */
    | UndecodableReply(responseText: string)
      /** A reply of the wrong shape for the endpoint (a KeyError or TypeError when indexing). */
    | Malformed(path: string)
      /** Python's ZeroDivisionError. */
    | ZeroDivision

  datatype Result<+T> = Success(value: T) | Failure(error: Error)
}
