/** Values shared by every part of the model: optional values, results, and
    the error responses the request handlers send back. */
module Common {

  /** An absent or present value: a missing query parameter, an omitted body field. */
  datatype Option<+T> = None | Some(value: T) {
    /** The value, or `default` when absent. */
    function GetOr(default: T): T {
      match this
      case Some(v) => v
      case None => default
    }
  }

  /** The outcome of a handler: a value, or an error response. */
  datatype Result<+T, +E> = Success(value: T) | Failure(error: E)

  /** One `{ field, message }` entry of a `details` list. */
  datatype Detail = Detail(field: string, message: string)

  /** An error response: the HTTP status, the `error` text, the `details`
      string some handlers add (the caught error's message), and the
      `details` list the validation responses carry. */
  datatype ApiError = ApiError(status: int, error: string, cause: Option<string>, details: seq<Detail>)

  /** The 404 answer of every by-id handler. */
  const TicketNotFound: ApiError := ApiError(404, "Ticket not found", None, [])

  /** One failed rule of a stored document's schema: the path and the message. */
  datatype FieldError = FieldError(path: string, message: string)

  /** The message of a document validation error: a heading ("Ticket
      validation failed" on a save, "Validation failed" for update
      validators), then `path: message` for each failed rule, comma-separated. */
  function ValidationMessage(heading: string, errors: seq<FieldError>): string {
    heading + ": " + JoinErrors(errors)
  }

  function JoinErrors(errors: seq<FieldError>): string {
    if errors == [] then ""
    else if |errors| == 1 then errors[0].path + ": " + errors[0].message
    else errors[0].path + ": " + errors[0].message + ", " + JoinErrors(errors[1..])
  }
}
