/** The application-wide error middleware: maps an error that reached it
    to a status and a body. */
module ErrorHandler {
  import opened Common

  /** The parts of an error the middleware looks at: its name, its numeric
      code if it has one, and, for a document validation error, the failed
      rules in order. */
  datatype ServerError = ServerError(name: string, code: Option<int>, errors: seq<FieldError>)

  /** The answer for an error. The checks run in order, so the name wins
      over the code: a document validation error answers 400 "Validation
      Error" with one detail per failed rule; a failed id conversion answers
      400 "Invalid ID format"; a duplicate key (code 11000) answers 400
      "Duplicate field value entered"; anything else answers 500 "Internal
      server error". Only the first case carries details, and no answer
      carries the error's own message. */
  function HandleError(err: ServerError): (r: ApiError)
    ensures r.status == 400 <==> err.name == "ValidationError" || err.name == "CastError" || err.code == Some(11000)
    ensures r.status != 400 ==> r == ApiError(500, "Internal server error", None, [])
    ensures r.cause.None?
    ensures err.name == "ValidationError" ==>
      && r.error == "Validation Error"
      && |r.details| == |err.errors|
      && forall i :: 0 <= i < |err.errors| ==> r.details[i] == Detail(err.errors[i].path, err.errors[i].message)
    ensures err.name == "CastError" ==> r == ApiError(400, "Invalid ID format", None, [])
    ensures err.name != "ValidationError" && err.name != "CastError" && err.code == Some(11000) ==>
      r == ApiError(400, "Duplicate field value entered", None, [])
  {
    if err.name == "ValidationError" then
      ApiError(400, "Validation Error", None,
        seq(|err.errors|, i requires 0 <= i < |err.errors| => Detail(err.errors[i].path, err.errors[i].message)))
    else if err.name == "CastError" then ApiError(400, "Invalid ID format", None, [])
    else if err.code == Some(11000) then ApiError(400, "Duplicate field value entered", None, [])
    else ApiError(500, "Internal server error", None, [])
  }

  /** A validation error names every failed rule's path in its details, so
      each such path can be found in the answer. */
  lemma ValidationPathsReported(err: ServerError, path: string)
    requires err.name == "ValidationError"
    requires exists e :: e in err.errors && e.path == path
    ensures exists d :: d in HandleError(err).details && d.field == path
  {
    var e :| e in err.errors && e.path == path;
    var i :| 0 <= i < |err.errors| && err.errors[i] == e;
    assert HandleError(err).details[i].field == path;
  }
}
