/** `GlobalExceptionHandler`: which HTTP status and body each exception becomes. */
module GlobalExceptionHandler {
  import opened Wrappers
  import opened Errors

  const BadRequest := 400
  const NotFound := 404

  /** `ExceptionDto`; the time stamp is the clock reading passed in. */
  datatype ExceptionDto = ExceptionDto(status: int, message: Option<string>, timeStamp: int)

  datatype Response = Response(body: ExceptionDto, status: int)

  /** The three not-found exceptions have handlers of their own; every other exception falls to the generic one. */
  predicate HasNotFoundHandler(e: Error)
  {
    e.ClientNotFound? || e.ConsultationNotFound? || e.ConsultationListEmpty?
  }

  function HandleException(e: Error, now: int): (r: Response)
    ensures r.status == NotFound <==> HasNotFoundHandler(e)
    ensures r.status == BadRequest <==> !HasNotFoundHandler(e)
    ensures r.body.status == r.status
    ensures r.body.message == Message(e)
    ensures r.body.timeStamp == now
  {
    var status := if HasNotFoundHandler(e) then NotFound else BadRequest;
    Response(ExceptionDto(status, Message(e), now), status)
  }
}
