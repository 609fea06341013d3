/**
 * ExceptionMiddleware.HandleExceptionAsync
 * (testtask/Middlewares/ExceptionMiddleware.cs): the response an exception
 * escaping a controller action is turned into.
 */
module ExceptionMiddleware {
  import opened Wrappers
  import opened Runtime

  datatype HttpStatus = BadRequest | Conflict | InternalServerError {
    /** The numeric value of the HttpStatusCode member. */
    function Code(): (c: int)
      ensures c == 400 <==> this == BadRequest
      ensures c == 409 <==> this == Conflict
      ensures c == 500 <==> this == InternalServerError
    {
      match this
      case BadRequest => 400
      case Conflict => 409
      case InternalServerError => 500
    }
  }

  /**
   * The switch on the exception's type. Its cases are tried in order, and a
   * case for a class also catches its subclasses.
   */
  function StatusFor(kind: ExceptionType): (s: HttpStatus)
    ensures s == BadRequest <==> IsArgumentException(kind) || IsValidationException(kind)
    ensures s == Conflict <==> IsDuplicateNameException(kind)
  {
    if IsArgumentException(kind) then BadRequest          // ArgumentOutOfRangeException, ArgumentException
    else if IsValidationException(kind) then BadRequest
    else if IsDuplicateNameException(kind) then Conflict
    else InternalServerError
  }

  /** The anonymous object `new { error = exception.Message }`. */
  datatype ErrorBody = ErrorBody(error: string)

  /** What HandleExceptionAsync sets on the response before writing the serialized body. */
  datatype ErrorResponse = ErrorResponse(contentType: string, statusCode: int, body: ErrorBody)

  function HandleException(e: Exception): (r: ErrorResponse)
    ensures r.contentType == "application/json"
    ensures r.statusCode == StatusFor(e.kind).Code()
    ensures r.statusCode in {400, 409, 500}
    ensures r.body.error == e.Message() && e.text <= r.body.error
  {
    ErrorResponse("application/json", StatusFor(e.kind).Code(), ErrorBody(e.Message()))
  }

  /** Every exception outside the three hierarchies the switch names, DbUpdateException included, is a 500 that still carries its message. */
  lemma UnclassifiedIsServerError(e: Exception)
    requires !IsArgumentException(e.kind) && !IsValidationException(e.kind) && !IsDuplicateNameException(e.kind)
    ensures HandleException(e).statusCode == 500
    ensures HandleException(e).body == ErrorBody(e.text)
  {
  }

  /** Subclasses the switch does not name are caught by the case for their base class. */
  lemma SubclassesTakeTheirBaseStatus(name: string)
    ensures HandleException(Exception(OtherException(name, ArgumentFamily), "m", Some("p"))) ==
      ErrorResponse("application/json", 400, ErrorBody("m (Parameter 'p')"))
    ensures StatusFor(OtherException(name, ValidationFamily)).Code() == 400
    ensures StatusFor(OtherException(name, DuplicateNameFamily)).Code() == 409
    ensures StatusFor(OtherException(name, DbUpdateFamily)).Code() == 500
  {
  }
}
