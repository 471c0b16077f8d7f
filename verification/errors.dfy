/**
 * The application error type (`AppError`), its HTTP rendering and the
 * conversions from database and connection-pool errors.
 */
module Errors {

  /** Every variant carries a free-text message, rendered to the client unchanged. */
  datatype AppError =
    | DatabaseError(msg: string)
    | NotFound(msg: string)
    | Unauthorized(msg: string)
    | Forbidden(msg: string)
    | BadRequest(msg: string)
    | InternalServerError(msg: string)
    | ValidationError(msg: string)

  /** Caller mistakes: the 4xx variants. */
  predicate IsClientError(e: AppError) {
    e.NotFound? || e.Unauthorized? || e.Forbidden? || e.BadRequest? || e.ValidationError?
  }

  /**
   * The HTTP status `into_response` sends for each variant. Read backwards,
   * each status names exactly the variants listed with it.
   */
  function StatusCode(e: AppError): (code: int)
    ensures code == 404 <==> e.NotFound?
    ensures code == 401 <==> e.Unauthorized?
    ensures code == 403 <==> e.Forbidden?
    ensures code == 400 <==> e.BadRequest? || e.ValidationError?
    ensures code == 500 <==> e.DatabaseError? || e.InternalServerError?
    ensures 400 <= code < 500 <==> IsClientError(e)
  {
    match e
    case DatabaseError(_) => 500
    case NotFound(_) => 404
    case Unauthorized(_) => 401
    case Forbidden(_) => 403
    case BadRequest(_) => 400
    case InternalServerError(_) => 500
    case ValidationError(_) => 400
  }

  /** An HTTP error response: a status and the JSON object `{"error": msg}`. */
  datatype ErrorResponse = ErrorResponse(status: int, body: map<string, string>)

  function IntoResponse(e: AppError): (r: ErrorResponse)
    ensures r.status == StatusCode(e)
    ensures r.body.Keys == {"error"}
    ensures r.body["error"] == e.msg
  {
    ErrorResponse(StatusCode(e), map["error" := e.msg])
  }

  /** The variant's `Display` prefix. */
  function DisplayPrefix(e: AppError): string {
    match e
    case DatabaseError(_) => "Database error: "
    case NotFound(_) => "Not found: "
    case Unauthorized(_) => "Unauthorized: "
    case Forbidden(_) => "Forbidden: "
    case BadRequest(_) => "Bad request: "
    case InternalServerError(_) => "Internal server error: "
    case ValidationError(_) => "Validation error: "
  }

  /** `format!("{}", e)`: the variant's prefix followed by the message. */
  function Display(e: AppError): (r: string)
    ensures |r| > |e.msg| && r[|r| - |e.msg|..] == e.msg
  {
    DisplayPrefix(e) + e.msg
  }

  /** The displayed text determines the error: prefixes start with distinct letters. */
  lemma DisplayInjective(e1: AppError, e2: AppError)
    requires Display(e1) == Display(e2)
    ensures e1 == e2
  {
    var d := Display(e1);
    assert d[0] == DisplayPrefix(e1)[0] == DisplayPrefix(e2)[0];
    assert e1.DatabaseError? <==> e2.DatabaseError?;
    assert e1.NotFound? <==> e2.NotFound?;
    assert e1.Unauthorized? <==> e2.Unauthorized?;
    assert e1.Forbidden? <==> e2.Forbidden?;
    assert e1.BadRequest? <==> e2.BadRequest?;
    assert e1.InternalServerError? <==> e2.InternalServerError?;
    assert DisplayPrefix(e1) == DisplayPrefix(e2);
    assert e1.msg == d[|DisplayPrefix(e1)|..] == e2.msg;
  }

  /** The diesel errors the core can meet: a missing row, or anything else with its text. */
  datatype DieselError = RecordNotFound | OtherDieselError(description: string)

  const ResourceNotFound: string := "Resource not found"

  /** `From<diesel::result::Error>`: only a missing row becomes a 404. */
  function FromDiesel(e: DieselError): (r: AppError)
    ensures r.NotFound? <==> e.RecordNotFound?
    ensures e.RecordNotFound? ==> r.msg == ResourceNotFound
    ensures !e.RecordNotFound? ==> r.DatabaseError? && r.msg == e.description
  {
    match e
    case RecordNotFound => NotFound(ResourceNotFound)
    case OtherDieselError(d) => DatabaseError(d)
  }

  /** `From<PoolError>`: a connection-pool failure is always a 500 database error. */
  function FromPoolError(description: string): (r: AppError)
    ensures r.DatabaseError? && r.msg == description
    ensures StatusCode(r) == 500
  {
    DatabaseError(description)
  }
}
