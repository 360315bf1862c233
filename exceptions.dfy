/** The exceptions the services throw and `GlobalExceptionHandler`, which turns each into an HTTP
    response whose body repeats the status code. */
module Exceptions {

  /** The Java exception classes the modelled code throws, each with its message. */
  datatype Exception =
    | NotFoundException(message: string)
    | InvalidBookingStateAndDateException(message: string)
    | DataIntegrityViolationException(message: string)
    | InvalidCredentialException(message: string)
    | ResourceNotFoundException(message: string)
    | IllegalArgumentException(message: string)
    | IllegalStateException(message: string)
    | NullPointerException(message: string)
    | MailException(message: string)
    | ConstraintViolationException(message: string)
    | RuntimeException(message: string)

  /** `ResponseEntity<Response>`: the HTTP status and the body's `status` and `message`. */
  datatype ErrorResponse = ErrorResponse(httpStatus: int, status: int, message: string)

  const BAD_REQUEST := 400
  const NOT_FOUND := 404
  const CONFLICT := 409
  const INTERNAL_SERVER_ERROR := 500

  const InternalErrorPrefix := "Erro interno no servidor: "
  const RoomInUseMessage := "Não é possível deletar este quarto porque ele está vinculado a uma ou mais reservas."

  function HandleAllUnknowExceptions(ex: Exception): ErrorResponse {
    ErrorResponse(INTERNAL_SERVER_ERROR, INTERNAL_SERVER_ERROR, InternalErrorPrefix + ex.message)
  }

  function HandleNotFoundException(ex: Exception): ErrorResponse {
    ErrorResponse(NOT_FOUND, NOT_FOUND, ex.message)
  }

  function HandleInvalidBookingStateAndDateException(ex: Exception): ErrorResponse {
    ErrorResponse(BAD_REQUEST, BAD_REQUEST, ex.message)
  }

  function HandleDataIntegrityViolationException(ex: Exception): ErrorResponse {
    ErrorResponse(CONFLICT, CONFLICT, RoomInUseMessage)
  }

  /** The handler Spring selects: the one declared for the exception's own class, and the
      catch-all `Exception` handler for every class without one. */
  function Handle(ex: Exception): (r: ErrorResponse)
    ensures r.status == r.httpStatus
    ensures r.httpStatus == NOT_FOUND <==> ex.NotFoundException?
    ensures r.httpStatus == BAD_REQUEST <==> ex.InvalidBookingStateAndDateException?
    ensures r.httpStatus == CONFLICT <==> ex.DataIntegrityViolationException?
    ensures r.httpStatus == INTERNAL_SERVER_ERROR <==>
              !(ex.NotFoundException? || ex.InvalidBookingStateAndDateException? || ex.DataIntegrityViolationException?)
    ensures (ex.NotFoundException? || ex.InvalidBookingStateAndDateException?) ==> r.message == ex.message
    ensures ex.DataIntegrityViolationException? ==> r.message == RoomInUseMessage
    ensures r.httpStatus == INTERNAL_SERVER_ERROR ==> r.message == InternalErrorPrefix + ex.message
  {
    match ex
    case NotFoundException(_) => HandleNotFoundException(ex)
    case InvalidBookingStateAndDateException(_) => HandleInvalidBookingStateAndDateException(ex)
    case DataIntegrityViolationException(_) => HandleDataIntegrityViolationException(ex)
    case _ => HandleAllUnknowExceptions(ex)
  }

  /** Illegal arguments and states (blank references, expired or used reset tokens) get no
      handler of their own and reach the client as internal errors, as do wrapped runtime errors. */
  lemma ValidationFailuresAreInternalErrors(message: string)
    ensures Handle(IllegalArgumentException(message)).httpStatus == INTERNAL_SERVER_ERROR
    ensures Handle(IllegalStateException(message)).httpStatus == INTERNAL_SERVER_ERROR
    ensures Handle(ResourceNotFoundException(message)).httpStatus == INTERNAL_SERVER_ERROR
    ensures Handle(InvalidCredentialException(message)).httpStatus == INTERNAL_SERVER_ERROR
    ensures Handle(ConstraintViolationException(message)).httpStatus == INTERNAL_SERVER_ERROR
    ensures Handle(RuntimeException(message)).message == InternalErrorPrefix + message
  {
  }

  /** The 409 body is the same whatever constraint was violated. */
  lemma ConflictMessageIgnoresCause(a: string, b: string)
    ensures Handle(DataIntegrityViolationException(a)) == Handle(DataIntegrityViolationException(b))
  {
  }
}
