/** The JSON envelope every endpoint answers with. */
module Responses {
  import opened Wrappers
  import opened ServiceErrors

  datatype ErrorBody = ErrorBody(code: string, message: string, traceId: string)

  /** APIResponse; `error` and `data` are omitted from the JSON when absent. */
  datatype ApiResponse<D> = ApiResponse(ok: bool, error: Option<ErrorBody>, data: Option<D>)

  /** An envelope is either a success with no error body or a failure with
      an error body and no data. */
  predicate WellFormed<D>(r: ApiResponse<D>)
  {
    (r.ok <==> r.error.None?) && (!r.ok ==> r.data.None?)
  }

  /** SuccessResponse. */
  function SuccessResponse<D>(data: D): (r: ApiResponse<D>)
    ensures WellFormed(r) && r.ok
    ensures r.data == Some(data)
  {
    ApiResponse(true, None, Some(data))
  }

  /** NewErrorResponse. */
  function NewErrorResponse<D>(code: string, message: string, traceId: string): (r: ApiResponse<D>)
    ensures WellFormed(r) && !r.ok
    ensures r.error == Some(ErrorBody(code, message, traceId))
  {
    ApiResponse(false, Some(ErrorBody(code, message, traceId)), None)
  }

  /** The error envelope of a service error carries its wire code and its
      message verbatim, so distinct codes stay distinguishable. */
  lemma {:induction false} ErrorResponseOfServiceError<D>(e: ServiceError, f: ServiceError, traceId: string)
    ensures var r: ApiResponse<D> := NewErrorResponse(CodeText(e.code), Error(e), traceId);
      r.error.value.code == CodeText(e.code) && r.error.value.message == e.message
    ensures (NewErrorResponse<D>(CodeText(e.code), Error(e), traceId)
             == NewErrorResponse<D>(CodeText(f.code), Error(f), traceId)) ==> e == f
  {
    if NewErrorResponse<D>(CodeText(e.code), Error(e), traceId)
       == NewErrorResponse<D>(CodeText(f.code), Error(f), traceId) {
      CodeTextRoundTrip(e.code);
      CodeTextRoundTrip(f.code);
    }
  }
}
