/** The service's error taxonomy: a code and a message, built from an
    upstream status code, a timeout, a generic upstream failure, an internal
    failure or a missing resource. */
module ServiceErrors {
  import opened Wrappers
  import opened GoErrors

  datatype ErrorCode =
    | Upstream403
    | Upstream404
    | Upstream500
    | UpstreamTimeout
    | UpstreamGeneric
    | ResourceNotFound
    | InternalError

  /** The code as it appears on the wire. */
  function CodeText(c: ErrorCode): string
  {
    match c
    case Upstream403 => "UPSTREAM_403"
    case Upstream404 => "UPSTREAM_404"
    case Upstream500 => "UPSTREAM_500"
    case UpstreamTimeout => "UPSTREAM_TIMEOUT"
    case UpstreamGeneric => "UPSTREAM_ERROR"
    case ResourceNotFound => "RESOURCE_NOT_FOUND"
    case InternalError => "INTERNAL_ERROR"
  }

  /** Reads a wire code back. */
  function CodeOf(t: string): Option<ErrorCode>
  {
    if t == "UPSTREAM_403" then Some(Upstream403)
    else if t == "UPSTREAM_404" then Some(Upstream404)
    else if t == "UPSTREAM_500" then Some(Upstream500)
    else if t == "UPSTREAM_TIMEOUT" then Some(UpstreamTimeout)
    else if t == "UPSTREAM_ERROR" then Some(UpstreamGeneric)
    else if t == "RESOURCE_NOT_FOUND" then Some(ResourceNotFound)
    else if t == "INTERNAL_ERROR" then Some(InternalError)
    else None
  }

  /** Every code reads back from its wire text, so distinct codes have
      distinct texts. */
  lemma {:induction false} CodeTextRoundTrip(c: ErrorCode)
    ensures CodeOf(CodeText(c)) == Some(c)
  {
  }

  datatype ServiceError = ServiceError(code: ErrorCode, message: string)

  /** (*ServiceError).Error(). */
  function Error(e: ServiceError): string
  {
    e.message
  }

  /** `s` ends with `t`. */
  predicate EndsWith(s: string, t: string)
  {
    |t| <= |s| && s[|s| - |t|..] == t
  }

  /** The HTTP statuses an upstream gateway or server failure is reported with. */
  predicate IsServerFailure(status: int)
  {
    status == 500 || status == 502 || status == 503 || status == 504
  }

  /** The message heads NewUpstreamError chooses from. */
  const ForbiddenHead: string := "Upstream service returned 403 Forbidden"
  const NotFoundHead: string := "Upstream service returned 404 Not Found"
  const ServiceErrorHead: string := "Upstream service error"

  /** NewUpstreamError's choice of code and message head for a status. */
  function UpstreamCategory(status: int): (ErrorCode, string)
  {
    if status == 403 then (Upstream403, ForbiddenHead)
    else if status == 404 then (Upstream404, NotFoundHead)
    else if IsServerFailure(status) then (Upstream500, ServiceErrorHead)
    else (UpstreamGeneric, ServiceErrorHead)
  }

  /** The head of the message by status: 403 and 404 name their status,
      every other status reads "Upstream service error". */
  lemma {:induction false} UpstreamHeads(status: int, err: GoError)
    ensures status == 403 ==> Error(NewUpstreamError(status, err)) == ForbiddenHead + ": " + ErrorText(err)
    ensures status == 404 ==> Error(NewUpstreamError(status, err)) == NotFoundHead + ": " + ErrorText(err)
    ensures status != 403 && status != 404 ==>
      Error(NewUpstreamError(status, err)) == ServiceErrorHead + ": " + ErrorText(err)
  {
  }

  /** NewUpstreamError. */
  function NewUpstreamError(status: int, err: GoError): (r: ServiceError)
    ensures r.code == Upstream403 <==> status == 403
    ensures r.code == Upstream404 <==> status == 404
    ensures r.code == Upstream500 <==> IsServerFailure(status)
    ensures r.code == UpstreamGeneric <==> status != 403 && status != 404 && !IsServerFailure(status)
    ensures Error(r) == UpstreamCategory(status).1 + ": " + ErrorText(err)
    ensures EndsWith(Error(r), ": " + ErrorText(err))
  {
    var (code, message) := UpstreamCategory(status);
    ServiceError(code, message + ": " + ErrorText(err))
  }

  /** NewUpstreamTimeoutError. */
  function NewUpstreamTimeoutError(err: GoError): (r: ServiceError)
    ensures r.code == UpstreamTimeout
    ensures EndsWith(Error(r), ErrorText(err))
  {
    ServiceError(UpstreamTimeout, "Request timeout: " + ErrorText(err))
  }

  /** NewUpstreamGenericError. */
  function NewUpstreamGenericError(err: GoError): (r: ServiceError)
    ensures r.code == UpstreamGeneric
    ensures EndsWith(Error(r), ErrorText(err))
  {
    ServiceError(UpstreamGeneric, "Failed to fetch data from upstream service: " + ErrorText(err))
  }

  /** NewInternalError. */
  function NewInternalError(message: string, err: GoError): (r: ServiceError)
    ensures r.code == InternalError
    ensures Error(r) == message + ": " + ErrorText(err)
    ensures |Error(r)| >= |message| && Error(r)[..|message|] == message
    ensures EndsWith(Error(r), ": " + ErrorText(err))
  {
    ServiceError(InternalError, message + ": " + ErrorText(err))
  }

  /** NewNotFoundError. */
  function NewNotFoundError(err: GoError): (r: ServiceError)
    ensures r.code == ResourceNotFound
    ensures Error(r) == ErrorText(err)
  {
    ServiceError(ResourceNotFound, ErrorText(err))
  }

  /** Only NewUpstreamError can report a 403, a 404 or a server failure,
      and only the timeout constructor reports a timeout. */
  lemma {:induction false} CodesIdentifyConstructor(status: int, message: string, err: GoError)
    ensures NewUpstreamTimeoutError(err).code !in {Upstream403, Upstream404, Upstream500}
    ensures NewUpstreamGenericError(err).code != UpstreamTimeout
    ensures NewInternalError(message, err).code != NewNotFoundError(err).code
    ensures NewUpstreamError(status, err).code != UpstreamTimeout
  {
  }
}
