/** HTTP status codes and the two kinds of failure the backend throws: an
    `ApiError` that carries its own status code, and any other error
    (a plain `Error` thrown by a service, or a database error). */
module Errors {
  import opened Wrappers

  const OK := 200
  const CREATED := 201
  const BAD_REQUEST := 400
  const UNAUTHORIZED := 401
  const FORBIDDEN := 403
  const NOT_FOUND := 404
  const CONFLICT := 409
  const INTERNAL_SERVER_ERROR := 500

  /** `OtherError` keeps the error's `name` (`"Error"` for a plain `Error`,
      the Sequelize class name for a database error) besides its message. */
  datatype Failure =
    | ApiError(status: int, message: string)
    | OtherError(name: string, message: string)

  datatype Result<T> = Ok(value: T) | Err(failure: Failure)

  /** A plain `new Error(message)`. */
  function PlainError(message: string): Failure
  {
    OtherError("Error", message)
  }

  /** `String(error)`: the name, a colon and the message. `ApiError` does
      not set its own name, so it prints as `Error`. */
  function ErrorString(f: Failure): string
  {
    match f
    case ApiError(_, m) => "Error: " + m
    case OtherError(n, m) => n + ": " + m
  }

  /** Reason phrase of the only status code whose phrase the code asks for. */
  const INTERNAL_SERVER_ERROR_PHRASE := "Internal Server Error"

  /** The catch blocks that build the new message from `error.message`
      (user service): an `ApiError` propagates unchanged, anything else
      becomes a 500 `ApiError` whose message is `prefix` and the error's
      message. */
  function RethrowMessage(f: Failure, prefix: string): (r: Failure)
    ensures r.ApiError?
    ensures f.ApiError? ==> r == f
    ensures f.OtherError? ==> r.status == INTERNAL_SERVER_ERROR && r.message == prefix + f.message
  {
    match f
    case ApiError(_, _) => f
    case OtherError(_, m) => ApiError(INTERNAL_SERVER_ERROR, prefix + m)
  }

  /** The catch blocks that concatenate the error object itself (seeker and
      recruiter services): as `RethrowMessage`, with the error's name
      included in the text. */
  function RethrowString(f: Failure, prefix: string): (r: Failure)
    ensures r.ApiError?
    ensures f.ApiError? ==> r == f
    ensures f.OtherError? ==> r.status == INTERNAL_SERVER_ERROR && r.message == prefix + f.name + ": " + f.message
  {
    match f
    case ApiError(_, _) => f
    case OtherError(_, _) => ApiError(INTERNAL_SERVER_ERROR, prefix + ErrorString(f))
  }

  /** A response: the status and the `message` (or `error`) text of its
      JSON body, plus the `data` payload when there is one. */
  datatype Response<T> = Response(status: int, message: string, data: Option<T>)

  /** The catch blocks of the application, seeker and recruiter
      controllers: an `ApiError` answers with its own status and message,
      anything else with 500 and the error's message, or the reason phrase
      when that message is empty. */
  function ErrorResponse<T>(f: Failure): (r: Response<T>)
    ensures r.data.None?
    ensures f.ApiError? ==> r.status == f.status && r.message == f.message
    ensures f.OtherError? ==> r.status == INTERNAL_SERVER_ERROR
    ensures f.OtherError? && f.message != "" ==> r.message == f.message
    ensures f.OtherError? && f.message == "" ==> r.message == INTERNAL_SERVER_ERROR_PHRASE
  {
    match f
    case ApiError(s, m) => Response(s, m, None)
    case OtherError(_, m) =>
      Response(INTERNAL_SERVER_ERROR, if m != "" then m else INTERNAL_SERVER_ERROR_PHRASE, None)
  }
}
