/**
 * Converts errors thrown by the external ledger's client into this
 * domain's error taxonomy.
 */
module ErrorHandler {
  import opened Wrappers
  import opened Factory

  const PECORINO_REQUEST_ERROR: string := "PecorinoRequestError"

  const BAD_REQUEST: int := 400
  const UNAUTHORIZED: int := 401
  const FORBIDDEN: int := 403
  const NOT_FOUND: int := 404
  const TOO_MANY_REQUESTS: int := 429

  predicate IsPecorinoRequestError(e: Error) {
    e.ServiceError? && e.name == PECORINO_REQUEST_ERROR
  }

  /** The text a classified error carries: the client error's name and message. */
  function ClassifiedMessage(e: Error): string
    requires e.ServiceError?
  {
    e.name + ":" + e.message
  }

  /**
   * The HTTP status an error of the taxonomy stands for, and its message;
   * an independent reading of a classified error used to state what the
   * classifier preserves.
   */
  function StatusOf(e: Error): Option<int> {
    match e
    case Argument(_, _) => Some(BAD_REQUEST)
    case Unauthorized(_) => Some(UNAUTHORIZED)
    case Forbidden(_) => Some(FORBIDDEN)
    case NotFound(_) => Some(NOT_FOUND)
    case RateLimitExceeded(_) => Some(TOO_MANY_REQUESTS)
    case _ => None
  }

  function MessageOf(e: Error): Option<string> {
    match e
    case Argument(_, m) => Some(m)
    case Unauthorized(m) => Some(m)
    case Forbidden(m) => Some(m)
    case NotFound(m) => Some(m)
    case RateLimitExceeded(m) => Some(m)
    case ServiceUnavailable(m) => Some(m)
    case _ => None
  }

  predicate IsClientErrorCode(code: int) {
    code == BAD_REQUEST || code == UNAUTHORIZED || code == FORBIDDEN
    || code == NOT_FOUND || code == TOO_MANY_REQUESTS
  }

  /**
   * Total: every error yields an error. Anything but a ledger request error
   * passes through unchanged; a ledger request error is mapped by its status
   * code, the five client-error codes to their own kinds and every other
   * code to ServiceUnavailable, always with the message "name:message".
   */
  function HandlePecorinoError(e: Error): (r: Error)
    ensures !IsPecorinoRequestError(e) ==> r == e
    ensures IsPecorinoRequestError(e) ==> MessageOf(r) == Some(ClassifiedMessage(e))
    ensures IsPecorinoRequestError(e) && IsClientErrorCode(e.code) ==> StatusOf(r) == Some(e.code)
    ensures IsPecorinoRequestError(e) && !IsClientErrorCode(e.code) ==> r.ServiceUnavailable?
    ensures IsPecorinoRequestError(e) && e.code == BAD_REQUEST ==> r == Argument("PecorinoArgument", ClassifiedMessage(e))
  {
    if IsPecorinoRequestError(e) then
      var message := ClassifiedMessage(e);
      if e.code == BAD_REQUEST then Argument("PecorinoArgument", message)
      else if e.code == UNAUTHORIZED then Unauthorized(message)
      else if e.code == FORBIDDEN then Forbidden(message)
      else if e.code == NOT_FOUND then NotFound(message)
      else if e.code == TOO_MANY_REQUESTS then RateLimitExceeded(message)
      else ServiceUnavailable(message)
    else e
  }

  /** Classifying twice is the same as classifying once: a classified error is no longer a request error. */
  lemma HandlePecorinoErrorIdempotent(e: Error)
    ensures HandlePecorinoError(HandlePecorinoError(e)) == HandlePecorinoError(e)
  {
  }
}
