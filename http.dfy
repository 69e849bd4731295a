/** What a request handler answers: a status code with a payload, or a status code with a message. */
module Http {
  import opened Wrappers

  /** An error response: `res.status(status).json({ message })`. */
  datatype Failure = Failure(status: nat, message: string)

  /** A handler's outcome. */
  datatype Response<T> = Success(status: nat, value: T) | Error(failure: Failure)

  /** A schema validation error thrown by the document store carries no status code, so the
      application's error handler answers it with 500 and the error's message. */
  function ValidationFailed(model: string): Failure
  {
    Failure(500, model + " validation failed")
  }

  /** The public path of a file the upload middleware stored: `/uploads/<filename>`, or null
      when the request carried no file. */
  function UploadPath(filename: Option<string>): (r: Option<string>)
    ensures r.Some? <==> filename.Some?
    // The path is the uploads prefix followed by the stored name, which it gives back.
    ensures r.Some? ==> |r.value| >= 9 && r.value[..9] == "/uploads/" && r.value[9..] == filename.value
  {
    if filename.Some? then Some("/uploads/" + filename.value) else None
  }
}
