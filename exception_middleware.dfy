/**
 * `GlobalExceptionHandlerMiddleware.HandleExceptionAsync`: the choice of HTTP status
 * code and response body for an exception that escaped a request. Writing the
 * serialised body to the response stream is not modelled.
 */
module ExceptionMiddleware {

  import opened DomainExceptions

  /** The status code, content type and the anonymous `{ Success, Message, Details }` body. */
  datatype ErrorResponse = ErrorResponse(
    statusCode: int,
    contentType: string,
    success: bool,
    message: string,
    details: string)

  const JsonContentType: string := "application/json"

  const StatusBadRequest: int := 400
  const StatusUnauthorized: int := 401
  const StatusNotFound: int := 404
  const StatusInternalServerError: int := 500

  const NotFoundText: string := "Resource not found."
  const ValidationText: string := "Validation failed."
  const UnauthorizedText: string := "Unauthorized access."
  const GenericErrorText: string := "An error occurred while processing your request."

  function HandleException(e: Exception): (r: ErrorResponse)
    ensures r.contentType == JsonContentType
    ensures !r.success
    ensures r.details == e.message
    ensures r.statusCode in {StatusBadRequest, StatusUnauthorized, StatusNotFound, StatusInternalServerError}
  {
    match e
    case NotFoundException(_) =>
      ErrorResponse(StatusNotFound, JsonContentType, false, NotFoundText, e.message)
    case ValidationException(_, _) =>
      ErrorResponse(StatusBadRequest, JsonContentType, false, ValidationText, e.message)
    case UnauthorizedAccessException(_) =>
      ErrorResponse(StatusUnauthorized, JsonContentType, false, UnauthorizedText, e.message)
    case _ =>
      ErrorResponse(StatusInternalServerError, JsonContentType, false, GenericErrorText, e.message)
  }

  /** Each status code stands for exactly one kind of exception; everything else is a 500. */
  lemma StatusIdentifiesKind(e: Exception)
    ensures HandleException(e).statusCode == StatusNotFound <==> e.NotFoundException?
    ensures HandleException(e).statusCode == StatusBadRequest <==> e.ValidationException?
    ensures HandleException(e).statusCode == StatusUnauthorized <==> e.UnauthorizedAccessException?
    ensures HandleException(e).statusCode == StatusInternalServerError
            <==> (e.BusinessRuleException? || e.OtherException?)
  {
  }

  /** The generic `Message` is a function of the status code, and tells the codes apart. */
  lemma MessageMatchesStatus(e1: Exception, e2: Exception)
    ensures HandleException(e1).message == HandleException(e2).message
            <==> HandleException(e1).statusCode == HandleException(e2).statusCode
  {
  }

  /** A `BusinessRuleException` has no case of its own and is reported as a server error. */
  lemma BusinessRuleIsServerError(message: string)
    ensures HandleException(BusinessRuleException(message)).statusCode == StatusInternalServerError
    ensures HandleException(BusinessRuleException(message)).message == GenericErrorText
  {
  }

  /** A not-found error raised by a service reaches the client as a 404 naming the entity and key. */
  lemma NotFoundReport(name: string, key: string)
    ensures HandleException(NotFound(name, key)) ==
            ErrorResponse(StatusNotFound, JsonContentType, false, NotFoundText, NotFoundMessage(name, key))
  {
  }
}
