/** The space summary: the newest cache row of each source, the newest ISS
    row and the number of OSDR items, gathered without ever failing. */
module SpaceSummary {
  import opened Wrappers
  import opened GoErrors
  import opened Cells
  import opened Query
  import opened ServiceErrors
  import opened JsonPick
  import opened IssEntity
  import opened CacheEntity
  import opened RefreshSpace

  /** models.SpaceCacheItem: the fetch time and the decoded payload, both
      left out of the response when unset (`Null` is a nil payload). */
  datatype SpaceCacheItem = SpaceCacheItem(at: Option<Instant>, payload: Json)

  /** The zero SpaceCacheItem: no time, no payload. */
  const EmptyItem: SpaceCacheItem := SpaceCacheItem(None, Null)

  /** models.SpaceSummary. */
  datatype Summary = Summary(
    apod: SpaceCacheItem,
    neo: SpaceCacheItem,
    flr: SpaceCacheItem,
    cme: SpaceCacheItem,
    spacex: SpaceCacheItem,
    iss: SpaceCacheItem,
    osdrCount: int)

  const EmptySummary: Summary := Summary(EmptyItem, EmptyItem, EmptyItem, EmptyItem, EmptyItem, EmptyItem, 0)

  /** The sources the summary covers, in the order it visits them. */
  const SummarySources: seq<string> := ["apod", "neo", "flr", "cme", "spacex"]

  /** The field of the summary that holds a source. */
  function FieldOf(s: Summary, source: string): SpaceCacheItem
  {
    if source == "apod" then s.apod
    else if source == "neo" then s.neo
    else if source == "flr" then s.flr
    else if source == "cme" then s.cme
    else if source == "spacex" then s.spacex
    else EmptyItem
  }

  /** The switch that stores an item under its source; an unknown source
      changes nothing. */
  function SetField(s: Summary, source: string, item: SpaceCacheItem): (r: Summary)
    ensures source in SummarySources ==> FieldOf(r, source) == item
    ensures forall other :: other != source ==> FieldOf(r, other) == FieldOf(s, other)
    ensures r.iss == s.iss && r.osdrCount == s.osdrCount
  {
    if source == "apod" then s.(apod := item)
    else if source == "neo" then s.(neo := item)
    else if source == "flr" then s.(flr := item)
    else if source == "cme" then s.(cme := item)
    else if source == "spacex" then s.(spacex := item)
    else s
  }

  /** MarshalPayloadToCache: the stored payload decoded, or an empty object
      when it does not decode. */
  function DecodedPayload(payload: Bytes, unmarshal: Bytes -> Result<Json, GoError>): (r: Json)
    ensures unmarshal(payload).Ok? ==> r == unmarshal(payload).value
    ensures unmarshal(payload).Err? ==> r == Obj(map[])
  {
    match unmarshal(payload)
    case Ok(j) => j
    case Err(_) => Obj(map[])
  }

  /** getLatestCacheItem: the newest row of the source, or the empty item
      when the lookup fails or finds nothing. */
  function LatestCacheItem(idField: string, source: string,
                           find: Spec -> Result<seq<SpaceCache>, GoError>,
                           unmarshal: Bytes -> Result<Json, GoError>): (r: SpaceCacheItem)
    ensures r.at.None? <==> find(LastNBySource(idField, 1, source)).Err? || find(LastNBySource(idField, 1, source)).value == []
    ensures r.at.None? ==> r == EmptyItem
    ensures r.at.Some? ==>
      var row := find(LastNBySource(idField, 1, source)).value[0];
      r.at == Some(row.fetchedAt) && r.payload == DecodedPayload(row.payload, unmarshal)
  {
    var result := find(LastNBySource(idField, 1, source));
    if result.Err? || |result.value| == 0 then EmptyItem
    else SpaceCacheItem(Some(result.value[0].fetchedAt), DecodedPayload(result.value[0].payload, unmarshal))
  }

  /** The specification getLastISSItem asks for: the newest row, only its
      fetch time and payload. */
  function LastIssItemSpec(idField: string): (s: Spec)
    ensures GetFields(s) == ["fetched_at", "payload"] && s.limit == 1
  {
    LastNByIdDesc(idField, 1, ["fetched_at", "payload"])
  }

  /** getLastISSItem. */
  function LastIssItem(idField: string,
                       find: Spec -> Result<seq<IssFetchLog>, GoError>,
                       unmarshal: Bytes -> Result<Json, GoError>): (r: SpaceCacheItem)
    ensures r.at.None? <==> find(LastIssItemSpec(idField)).Err? || find(LastIssItemSpec(idField)).value == []
    ensures r.at.None? ==> r == EmptyItem
    ensures r.at.Some? ==>
      var row := find(LastIssItemSpec(idField)).value[0];
      r.at == Some(row.fetchedAt) && r.payload == DecodedPayload(row.payload, unmarshal)
  {
    var result := find(LastNByIdDesc(idField, 1, ["fetched_at", "payload"]));
    if result.Err? || |result.value| == 0 then EmptyItem
    else SpaceCacheItem(Some(result.value[0].fetchedAt), DecodedPayload(result.value[0].payload, unmarshal))
  }

  /** GetSpaceSummary.  `cacheIdField` and `issIdField` are the
      repositories' GetIDFieldName; `counted` is the OSDR repository's
      Count answer.  A counting error is only logged: the count reported
      is whatever Count returned with it. */
  method GetSpaceSummary(cacheIdField: string, issIdField: string,
                         findCache: Spec -> Result<seq<SpaceCache>, GoError>,
                         findIss: Spec -> Result<seq<IssFetchLog>, GoError>,
                         unmarshal: Bytes -> Result<Json, GoError>,
                         counted: (int, Option<GoError>))
    returns (summary: Summary, err: Option<ServiceError>, log: seq<string>)
    ensures forall j :: 0 <= j < |SummarySources| ==>
      FieldOf(summary, SummarySources[j]) == LatestCacheItem(cacheIdField, SummarySources[j], findCache, unmarshal)
    ensures summary.iss == LastIssItem(issIdField, findIss, unmarshal)
    ensures summary.osdrCount == counted.0
    ensures log == (if counted.1.Some? then ["Error counting OSDR items: " + ErrorText(counted.1.value)] else [])
    ensures err == None
  {
    summary := EmptySummary;
    var sources := ["apod", "neo", "flr", "cme", "spacex"];
    for i := 0 to |sources|
      invariant sources == SummarySources
      invariant forall j :: 0 <= j < i ==>
        FieldOf(summary, sources[j]) == LatestCacheItem(cacheIdField, sources[j], findCache, unmarshal)
      invariant forall j :: i <= j < |sources| ==> FieldOf(summary, sources[j]) == EmptyItem
      invariant summary.iss == EmptyItem && summary.osdrCount == 0
    {
      var item := LatestCacheItem(cacheIdField, sources[i], findCache, unmarshal);
      summary := SetField(summary, sources[i], item);
    }
    summary := summary.(iss := LastIssItem(issIdField, findIss, unmarshal));
    var (osdrCount, countErr) := counted;
    log := [];
    if countErr.Some? {
      log := log + ["Error counting OSDR items: " + ErrorText(countErr.value)];
    }
    summary := summary.(osdrCount := osdrCount);
    err := None;
  }

  /** The summary reads exactly the sources a refresh can write: a name
      selects an upstream feed if and only if the summary has a field for
      it. */
  lemma {:induction false} SummaryCoversRefreshableSources(name: string)
    ensures FeedFor(name).Some? <==> name in SummarySources
  {
  }
}
