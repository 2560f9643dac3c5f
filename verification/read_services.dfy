/** The read use cases: the latest ISS row, the latest cache row of one
    source, and a page of OSDR items.  Each hands a find specification to
    its repository, whose answer is a parameter. */
module ReadServices {
  import opened Wrappers
  import opened GoErrors
  import opened Query
  import opened Repository
  import opened ServiceErrors
  import opened IssEntity
  import opened CacheEntity
  import opened OsdrEntity

  /** The message head GetLastISS gives an internal error; the trailing
      colon is part of it, so the rendered text has two. */
  const IssFindFailure: string := "Failed to find ISS data:"
  const CacheFindFailure: string := "Failed to find space cache data"
  const OsdrFindFailure: string := "Failed to find OSDR items"

  /** The shared tail of the single-row readers: a not-found error and an
      empty result are both reported as not found, any other error as an
      internal one with `failure` at its head, and otherwise the first
      (newest) row is returned. */
  function FirstOrNotFound<M>(found: Result<seq<M>, GoError>, failure: string): (r: Result<M, ServiceError>)
    ensures found.Ok? && |found.value| > 0 <==> r.Ok?
    ensures r.Ok? ==> r.value == found.value[0]
    ensures found.Err? && Is(found.error, ErrNotFound) ==> r == Err(NewNotFoundError(found.error))
    ensures found.Err? && !Is(found.error, ErrNotFound) ==> r == Err(NewInternalError(failure, found.error))
    ensures found == Ok([]) ==> r == Err(NewNotFoundError(ErrNotFound))
  {
    match found
    case Err(err) =>
      if Is(err, ErrNotFound) then Err(NewNotFoundError(err)) else Err(NewInternalError(failure, err))
    case Ok(rows) =>
      if |rows| == 0 then Err(NewNotFoundError(ErrNotFound)) else Ok(rows[0])
  }

  /** The specification GetLastISS asks for: one row, newest identity
      first, every column. */
  function LastIssSpec(idField: string): (s: Spec)
    ensures s.LastNByIdDesc? && s.idField == idField && s.limit == 1 && GetFields(s) == ["*"]
  {
    LastNByIdDesc(idField, 1, ["*"])
  }

  /** GetLastISS; `idField` is the ISS repository's GetIDFieldName. */
  function GetLastISS(idField: string, find: Spec -> Result<seq<IssFetchLog>, GoError>): (r: Result<IssFetchLog, ServiceError>)
    ensures r == FirstOrNotFound(find(LastIssSpec(idField)), IssFindFailure)
  {
    var result := find(LastNByIdDesc(idField, 1, ["*"]));
    match result
    case Err(err) =>
      if Is(err, ErrNotFound) then Err(NewNotFoundError(err)) else Err(NewInternalError(IssFindFailure, err))
    case Ok(rows) =>
      if |rows| == 0 then Err(NewNotFoundError(ErrNotFound)) else Ok(rows[0])
  }

  /** The specification GetLatestSpaceCache asks for: one row of the
      source, newest identity first. */
  function LatestCacheSpec(idField: string, source: string): (s: Spec)
    ensures s.LastNBySource? && s.sourceName == source && s.limit == 1 && GetFields(s) == ["*"]
  {
    LastNBySource(idField, 1, source)
  }

  /** GetLatestSpaceCache; `idField` is the cache repository's GetIDFieldName. */
  function GetLatestSpaceCache(idField: string, source: string,
                               find: Spec -> Result<seq<SpaceCache>, GoError>): (r: Result<SpaceCache, ServiceError>)
    ensures r == FirstOrNotFound(find(LatestCacheSpec(idField, source)), CacheFindFailure)
  {
    var result := find(LastNBySource(idField, 1, source));
    match result
    case Err(err) =>
      if Is(err, ErrNotFound) then Err(NewNotFoundError(err)) else Err(NewInternalError(CacheFindFailure, err))
    case Ok(rows) =>
      if |rows| == 0 then Err(NewNotFoundError(ErrNotFound)) else Ok(rows[0])
  }

  const DefaultOsdrLimit: int := 20

  /** The limit GetOSDRList asks for: a non-positive request means 20. */
  function OsdrLimit(limit: int): (r: int)
    ensures r >= 1
    ensures limit > 0 ==> r == limit
    ensures limit <= 0 ==> r == DefaultOsdrLimit
  {
    if limit <= 0 then DefaultOsdrLimit else limit
  }

  /** GetOSDRList: a not-found answer is an empty page, not an error. */
  function GetOSDRList(limit: int, find: Spec -> Result<seq<OsdrItem>, GoError>): (r: Result<seq<OsdrItem>, ServiceError>)
    ensures r.Err? <==> find(OsdrList(OsdrLimit(limit))).Err? && !Is(find(OsdrList(OsdrLimit(limit))).error, ErrNotFound)
    ensures r.Err? ==> r.error == NewInternalError(OsdrFindFailure, find(OsdrList(OsdrLimit(limit))).error)
    ensures r.Ok? && find(OsdrList(OsdrLimit(limit))).Err? ==> r.value == []
    ensures find(OsdrList(OsdrLimit(limit))).Ok? ==> r == Ok(find(OsdrList(OsdrLimit(limit))).value)
  {
    var limit' := if limit <= 0 then 20 else limit;
    var items := find(OsdrList(limit'));
    match items
    case Err(err) =>
      if Is(err, ErrNotFound) then Ok([]) else Err(NewInternalError(OsdrFindFailure, err))
    case Ok(rows) => Ok(rows)
  }

  /** The page GetOSDRList asks for always has a positive limit, so the
      builder's unsigned limit is that number itself. */
  lemma {:induction false} OsdrPageLimit(limit: int)
    requires limit < 0x8000_0000_0000_0000
    ensures Uint64(OsdrList(OsdrLimit(limit)).limit) == OsdrLimit(limit) >= 1
  {
    LimitConversion(OsdrLimit(limit));
  }

  /** A database "no rows" (seen through Find's mapping, wrapped or not)
      and an empty result reach the client as the same not-found error. */
  lemma {:induction false} NoRowsAndEmptyAgree<M>(context: string, failure: string)
    ensures FirstOrNotFound(MapNoRows<M>(Err(Wrapped(context, ErrNoRows))), failure)
         == FirstOrNotFound<M>(Ok([]), failure)
         == Err(ServiceError(ResourceNotFound, "entity not found"))
  {
    assert Is(Wrapped(context, ErrNoRows), ErrNoRows);
    assert MapNoRows<M>(Err(Wrapped(context, ErrNoRows))) == Err(ErrNotFound);
  }

  /** An internal error of GetLastISS prints two colons after its head. */
  lemma {:induction false} IssInternalErrorDoubleColon(err: GoError)
    requires !Is(err, ErrNotFound)
    ensures FirstOrNotFound<IssFetchLog>(Err(err), IssFindFailure)
         == Err(ServiceError(InternalError, "Failed to find ISS data:: " + ErrorText(err)))
  {
    assert IssFindFailure + ": " + ErrorText(err) == "Failed to find ISS data:: " + ErrorText(err);
  }
}
