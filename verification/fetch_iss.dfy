/** Fetching the ISS position, logging it, and reading the stored row
    back.  The HTTP client, the JSON encoder and the repository are
    oracles: their answers are parameters. */
module FetchIss {
  import opened Wrappers
  import opened GoErrors
  import opened Text
  import opened Cells
  import opened Query
  import opened ServiceErrors
  import opened JsonPick
  import opened Repository
  import opened IssEntity

  /** What an upstream client call produced: decoded JSON, or an error with
      the HTTP status (0 when no response arrived). */
  datatype Fetched = Fetched(data: Json) | FetchFailed(err: GoError, status: int)

  /** The lower-cased error text mentions a timeout or an exceeded deadline. */
  predicate MentionsTimeout(message: string)
  {
    Contains(ToLower(message), "timeout") || Contains(ToLower(message), "deadline exceeded")
  }

  /** Any spelling of "timeout", in any case, is recognised. */
  lemma {:induction false} TimeoutInAnyCase(message: string, w: string, i: int)
    requires OccursAt(message, w, i) && ToLower(w) == "timeout"
    ensures MentionsTimeout(message)
  {
    var lower := ToLower(message);
    assert lower[i..i + |w|] == ToLower(w) by {
      forall k | 0 <= k < |w|
        ensures lower[i..i + |w|][k] == ToLower(w)[k]
      {
        assert message[i + k] == w[k];
      }
    }
    OccursContains(lower, "timeout", i);
  }

  /** How a failed upstream call is reported: by status when a response
      arrived, otherwise as a timeout or a generic failure by its text. */
  function ClassifyFetchError(err: GoError, status: int): (r: ServiceError)
    ensures r.code == UpstreamTimeout <==> status == 0 && MentionsTimeout(ErrorText(err))
    ensures status == 0 && !MentionsTimeout(ErrorText(err)) ==> r == NewUpstreamGenericError(err)
    ensures status != 0 ==> r == NewUpstreamError(status, err)
    ensures EndsWith(Error(r), ErrorText(err))
  {
    if status == 0 then
      if MentionsTimeout(ErrorText(err)) then NewUpstreamTimeoutError(err) else NewUpstreamGenericError(err)
    else NewUpstreamError(status, err)
  }

  /** A 403, a 404 or a server failure reported by the upstream is never
      mistaken for a timeout, whatever the error text says. */
  lemma {:induction false} StatusWinsOverText(err: GoError, status: int)
    requires status == 403 || status == 404 || IsServerFailure(status)
    ensures ClassifyFetchError(err, status).code != UpstreamTimeout
    ensures ClassifyFetchError(err, status).code != UpstreamGeneric
  {
    assert status != 0;
    var r := ClassifyFetchError(err, status);
    assert r == NewUpstreamError(status, err);
    assert r.code in {Upstream403, Upstream404, Upstream500};
  }

  /** What FetchAndStoreISS ends with. */
  datatype Outcome =
    | Stored(log: IssFetchLog)   // the row read back
    | Failed(err: ServiceError)
    | IndexOutOfRange            // `createdLog[0]` on an empty result: a run-time panic

  /** The fields the read-back asks for. */
  function ReadBackFields(idField: string): seq<string>
  {
    [idField, "fetched_at", "source_url", "payload"]
  }

  /** The read-back specification: the newest row by identity. */
  function ReadBackSpec(idField: string): (s: Spec)
    ensures s.LastNByIdDesc? && s.limit == 1 && GetFields(s) == ReadBackFields(idField)
  {
    LastNByIdDesc(idField, 1, ReadBackFields(idField))
  }

  /** The log row built from a fetched payload: no identity (the database
      assigns one), the zero fetch time, the client's URL. */
  function NewLog(sourceUrl: string, payload: Bytes): (l: IssFetchLog)
    ensures GetValuesForEntity(AsDto(l)) == Ok([DefaultMarker, TimeCell(ZeroTime), TextCell(sourceUrl), JsonCell(payload)])
    ensures FromValues(Values(l)) == Some((ZeroTime, sourceUrl, payload))
  {
    var l := IssFetchLog(0, ZeroTime, sourceUrl, payload);
    RowOfLog(l);
    assert [DefaultMarker] + Values(l) == [DefaultMarker, TimeCell(ZeroTime), TextCell(sourceUrl), JsonCell(payload)];
    l
  }

  /** How the read-back result is turned into the outcome, as written. */
  function ReadBack(found: Result<seq<IssFetchLog>, GoError>): (r: Outcome)
    ensures found.Err? && Is(found.error, ErrNotFound) ==> r == Failed(NewNotFoundError(found.error))
    ensures found.Err? && !Is(found.error, ErrNotFound) ==> r == Failed(NewInternalError("Failed to find ISS data", found.error))
    ensures found.Ok? && |found.value| > 0 ==> r == Stored(found.value[0])
    ensures r == IndexOutOfRange <==> found == Ok([])
  {
    match found
    case Err(err) =>
      if Is(err, ErrNotFound) then Failed(NewNotFoundError(err))
      else Failed(NewInternalError("Failed to find ISS data", err))
    case Ok(rows) =>
      if |rows| == 0 then IndexOutOfRange else Stored(rows[0])
  }

  /** The read-back with the length check the other readers have: an
      empty result is reported as not found. */
  function ReadBackChecked(found: Result<seq<IssFetchLog>, GoError>): (r: Outcome)
    ensures r != IndexOutOfRange
    ensures found == Ok([]) ==> r == Failed(NewNotFoundError(ErrNotFound)) && r.err.code == ResourceNotFound
    ensures found != Ok([]) ==> r == ReadBack(found)
  {
    if found == Ok([]) then Failed(NewNotFoundError(ErrNotFound)) else ReadBack(found)
  }

  /** As written, a save that succeeds followed by an empty read-back ends
      in a panic rather than an error. */
  lemma {:induction false} EmptyReadBackPanics()
    ensures ReadBack(Ok([])) == IndexOutOfRange
    ensures ReadBackChecked(Ok([])) == Failed(ServiceError(ResourceNotFound, "entity not found"))
  {
  }

  /** FetchAndStoreISS.  Besides the outcome it returns the row handed to
      Save and the specification handed to Find, if the run got that far. */
  method FetchAndStoreISS(
    fetched: Fetched,
    sourceUrl: string,
    marshal: Json -> Result<Bytes, GoError>,
    save: IssFetchLog -> Option<GoError>,
    idField: string,
    find: Spec -> Result<seq<IssFetchLog>, GoError>)
    returns (outcome: Outcome, saved: Option<IssFetchLog>, queried: Option<Spec>)
    ensures fetched.FetchFailed? ==>
      outcome == Failed(ClassifyFetchError(fetched.err, fetched.status)) && saved == None && queried == None
    ensures fetched.Fetched? && marshal(fetched.data).Err? ==>
      outcome == Failed(NewInternalError("Failed to marshal ISS data", marshal(fetched.data).error))
      && saved == None && queried == None
    ensures fetched.Fetched? && marshal(fetched.data).Ok? ==>
      saved == Some(NewLog(sourceUrl, marshal(fetched.data).value))
    ensures saved.Some? && save(saved.value).Some? ==>
      outcome == Failed(NewInternalError("Failed to save ISS data", save(saved.value).value)) && queried == None
    ensures saved.Some? && save(saved.value).None? ==>
      queried == Some(ReadBackSpec(idField)) && outcome == ReadBack(find(ReadBackSpec(idField)))
  {
    if fetched.FetchFailed? {
      var err, code := fetched.err, fetched.status;
      if code == 0 {
        var errMsg := ToLower(ErrorText(err));
        if Contains(errMsg, "timeout") || Contains(errMsg, "deadline exceeded") {
          return Failed(NewUpstreamTimeoutError(err)), None, None;
        }
        return Failed(NewUpstreamGenericError(err)), None, None;
      }
      return Failed(NewUpstreamError(code, err)), None, None;
    }
    var payloadJson := marshal(fetched.data);
    if payloadJson.Err? {
      return Failed(NewInternalError("Failed to marshal ISS data", payloadJson.error)), None, None;
    }
    var entity := IssFetchLog(0, ZeroTime, sourceUrl, payloadJson.value);
    saved := Some(entity);
    var err := save(entity);
    if err.Some? {
      return Failed(NewInternalError("Failed to save ISS data", err.value)), saved, None;
    }
    var spec := LastNByIdDesc(idField, 1, [idField, "fetched_at", "source_url", "payload"]);
    queried := Some(spec);
    var createdLog := find(spec);
    if createdLog.Err? {
      if Is(createdLog.error, ErrNotFound) {
        return Failed(NewNotFoundError(createdLog.error)), saved, queried;
      }
      return Failed(NewInternalError("Failed to find ISS data", createdLog.error)), saved, queried;
    }
    if |createdLog.value| == 0 {
      return IndexOutOfRange, saved, queried;
    }
    outcome := Stored(createdLog.value[0]);
  }
}
