# go-iss persistence and use-case model

A Dafny model of the core of the `go-iss` service. The service fetches the
ISS position, NASA OSDR datasets and the NASA/SpaceX "space" feeds, and
stores them in PostgreSQL. It serves the stored rows back as JSON.

The model covers these parts:

- **Schema descriptor.** This is `Columns`. It holds the select-list expansion of `*` and `alias.*`. It also builds the two renderings of the upsert conflict clause.
- **Generic repository.**
  - Row building: the `DEFAULT` sentinel for an unset identity.
  - Batch save, with its all-or-nothing value errors.
  - The `Find` select query and its "no rows" mapping.
- **The three find specifications.** They are a closed datatype over the squirrel builder's structure.
- **The entities.** These are the ISS fetch log, the space cache row and the OSDR item. The model covers their `Values`/`GetID`, the OSDR columns and the OSDR repository's own upsert and count.
- **The service error taxonomy and the response envelope.**
- **The use cases.**
  - Fetch, classify, save and read back, for the ISS.
  - The dataset loop for OSDR.
  - The skip-on-failure refresh of the space cache.
  - The read services and the space summary.
- **The small parsers.** These are `envU64`, the `src` and `limit` query parameters, and the JSON pickers.
- **The background scheduler.** It is a loop over a finite sequence of `Tick`/`Done` events, plus its registration table.

Anything the code hands to the outside world is an oracle parameter: a function from the request to the answer. That covers:

- the HTTP clients;
- the squirrel `ToSql` rendering;
- database execution;
- `json.Marshal`/`Unmarshal`;
- the clock.

Statements are modelled by their structure: table, columns, rows of cells and conflict suffix. SQL text is not modelled.

Loops in the source are methods with loop invariants. Each is proved against a specification function, and the lemmas are about that function:
- `ForSelect`, `OnConflict` and `GetOnConflictStatement`;
- `getUpdateQuery`;
- the OSDR map loop;
- the `RefreshSpace` loop;
- the summary loop;
- the `src` trimming loop;
- `backgroundTask`.

Code that only computes a value is a function.

Paths below are relative to the repository root; `internal/` stands for `services/go-iss/internal/`.

## Model

| member | source | states |
|---|---|---|
| Schema.ForSelect | services/go-iss/internal/infrastructure/repository/column.go:30-48 | The result is the select list `SelectColumns` defines. An empty request gives exactly the readable list. |
| Schema.StarExpandsInPlace | services/go-iss/internal/infrastructure/repository/column.go:37-38 | A literal `*` is replaced, at its own position, by the whole readable list. |
| Schema.AliasStarExpandsInPlace | services/go-iss/internal/infrastructure/repository/column.go:39-45 | `alias.*` is replaced in place by `alias.` + each readable column, in readable order. |
| Schema.OtherFieldPassesThrough | services/go-iss/internal/infrastructure/repository/column.go:39-40 | Any other requested field is passed through unchanged, at its position. |
| Schema.ExpandedAppend | services/go-iss/internal/infrastructure/repository/column.go:36-46 | Expansion distributes over concatenation, so the relative order of the requested fields is preserved. |
| Schema.ExpandedLength | services/go-iss/internal/infrastructure/repository/column.go:35-47 | The output length is the request length, plus (readable count - 1) per wildcard. |
| Schema.QualifyAt | services/go-iss/internal/infrastructure/repository/column.go:42-44 | Qualifying keeps the length, and element i is `alias.` + column i. |
| Schema.OnConflict | services/go-iss/internal/infrastructure/repository/column.go:58-76 | The result is `OnConflictClause`. It is empty when there are no writable columns or no identity field. |
| Schema.ConflictAssignmentsSkipIdentity | services/go-iss/internal/infrastructure/repository/column.go:63-69 | The k-th assignment is `c = EXCLUDED.c` for the k-th writable column other than the identity, in writable order. Every such column gets one, and the identity gets none. |
| Schema.NonIdentityMembers | services/go-iss/internal/infrastructure/repository/column.go:63-69 | A column is among the kept ones iff it is writable and is not the identity. |
| Schema.NoAssignmentsIffOnlyIdentity | services/go-iss/internal/infrastructure/repository/column.go:71-75 | There are no assignments (so the clause is `DO NOTHING`) exactly when every writable column is the identity. |
| Schema.GetOnConflictStatement | services/go-iss/internal/infrastructure/repository/column.go:78-96 | The result is `UpsertSetList`, the `, `-join of the upsert assignments. |
| Schema.UpsertAssignmentsShape | services/go-iss/internal/infrastructure/repository/column.go:79-94 | The assignment count equals the writable count. The first `updated_at` is dropped from its place and a trailing `updated_at=NOW()` is added; every other column gets `c=EXCLUDED.c` in order. |
| Schema.UpsertSetListEndsWithNow | services/go-iss/internal/infrastructure/repository/column.go:92-95 | With `updated_at` writable, the SET list ends with `updated_at=NOW()`. |
| Schema.RemoveFirstAt | services/go-iss/internal/infrastructure/repository/column.go:83-86 | Only the first occurrence of `updated_at` is skipped. |
| Repository.IsDefault | services/go-iss/internal/infrastructure/repository/repository.go:124-133 | An int64 identity is unset exactly when it is 0, and a UUID exactly when it is `uuid.Nil`. Any other identity type is the error `unknown ID type`. |
| Repository.GetValuesForEntity | services/go-iss/internal/infrastructure/repository/repository.go:110-122 | The row is `DEFAULT` (for an unset identity) or the identity, followed by `Values()`; its length is 1 + the number of values. An unknown identity type is an error. |
| Repository.RowRoundTrip | services/go-iss/internal/infrastructure/repository/repository.go:110-122 | The identity read back from a row is none for `DEFAULT`, else the entity's identity, and the rest is `Values()`. |
| Repository.InsertColumns | services/go-iss/internal/infrastructure/repository/repository.go:94-96 | The insert column list is the identity field followed by `ForInsert()`. |
| Repository.RowsForAllOrNothing | services/go-iss/internal/infrastructure/repository/repository.go:98-104 | Rows are built iff no entity has an unknown identity type. There is then one row per entity, in input order. |
| Repository.RowsForFirstError | services/go-iss/internal/infrastructure/repository/repository.go:99-102 | The first failing entity decides the error; later entities are not looked at. |
| Repository.GetUpdateQuery | services/go-iss/internal/infrastructure/repository/repository.go:93-108 | The loop's result is `UpdateQuery`: a values error wrapped in `getting values to update`, or the rendered statement with the `ON CONFLICT (id)` suffix. |
| Repository.UpdateStatementShape | services/go-iss/internal/infrastructure/repository/repository.go:94-107 | The statement has the table, `[idField] + writable`, one row per entity in order, and the suffix `ON CONFLICT (id) DO UPDATE SET ` + the SET list. |
| Repository.ConflictTargetIsLiteralId | services/go-iss/internal/infrastructure/repository/repository.go:105 | The conflict target does not depend on the identity field name. |
| Repository.EmptyWritableLeavesBareSet | services/go-iss/internal/infrastructure/repository/repository.go:105 | With no writable columns, the suffix ends in a bare `DO UPDATE SET `. |
| Repository.SaveMany | services/go-iss/internal/infrastructure/repository/repository.go:76-91 | The result is `SaveManyOutcome`. An empty batch executes nothing and succeeds. At most one statement is executed, and errors are wrapped with `generating update query` or `execute update query`. |
| Repository.Save | services/go-iss/internal/infrastructure/repository/repository.go:72-74 | `Save(e)` has exactly the outcome of `SaveMany([e])`. |
| Repository.SaveManyAbortsOnUnknownId | services/go-iss/internal/infrastructure/repository/repository.go:81-84 | One entity with an unknown identity type aborts the whole batch before anything executes. The error still `Is` the identity error. |
| Repository.FindQuery | services/go-iss/internal/infrastructure/repository/repository.go:47-50 | The select query has the `ForSelect`-expanded fields of the specification and the repository table, plus the specification's filter, ordering and limit. |
| Repository.MapNoRows | services/go-iss/internal/infrastructure/repository/repository.go:57-65 | "No rows" anywhere in the wrap chain becomes `ErrNotFound`. Other errors and results pass unchanged. |
| Repository.Find | services/go-iss/internal/infrastructure/repository/repository.go:44-66 | A rendering error is returned as is. Otherwise the result is the database answer after `MapNoRows`. |
| Repository.GetIDFieldName | services/go-iss/internal/infrastructure/repository/repository.go:68-70 | The result is the descriptor's identity field. |
| Query.Uint64 | services/go-iss/internal/domain/iss/specification/get_last_n_by_id_desc.go:22 | `uint64(limit)` is the value congruent to the limit modulo 2^64. |
| Query.LimitConversion | services/go-iss/internal/domain/iss/specification/get_last_n_by_id_desc.go:22 | A non-negative limit reaches the builder unchanged. A negative one wraps to a value of at least 2^63. |
| Query.GetRule | services/go-iss/internal/domain/space_cache/specification/get_last_n_by_source.go:19-23 | Columns and table are kept. Exactly one order term is added: `idField DESC`, or `inserted_at DESC` for the OSDR list. The limit is `uint64(limit)`. Only the by-source specification adds the filter `source = name`. |
| Query.GetFields | services/go-iss/internal/domain/iss/specification/get_last_n_by_id_desc.go:25-27 | The id-ordered specification returns its stored field list; the other two return `["*"]`. |
| Query.BySourceIsFilteredById | services/go-iss/internal/domain/space_cache/specification/get_last_n_by_source.go:19-23 | The by-source rule is the by-id rule applied after the one equality filter. |
| Query.OsdrListOrdersByInsertion | services/go-iss/internal/domain/osdr/specification/get_list.go:15-19 | Despite its constructor's name, the OSDR list rule is the id-ordered rule over `inserted_at`. |
| OsdrColumns.WritableAreReadable | services/go-iss/internal/infrastructure/repository/osdr/column.go:4-20 | Every OSDR writable column is readable. |
| OsdrColumns.IdentityAndInsertionReadOnly | services/go-iss/internal/infrastructure/repository/osdr/column.go:4-20 | `id` and `inserted_at` are readable but not writable. |
| OsdrColumns.RemoveUpdatedAt | services/go-iss/internal/infrastructure/repository/osdr/column.go:4-10 | Without its `updated_at`, the writable list is `dataset_id, title, status, raw`. |
| OsdrColumns.UpsertAssignmentsOfOsdr | services/go-iss/internal/infrastructure/repository/osdr/column.go:4-10 | The OSDR SET assignments are the four copied columns followed by `updated_at=NOW()`. |
| OsdrColumns.OsdrSetListEndsWithNow | services/go-iss/internal/infrastructure/repository/osdr/column.go:8 | The OSDR SET list ends with `updated_at=NOW()`. |
| OsdrEntity.Values | services/go-iss/internal/infrastructure/repository/osdr/entity.go:19-28 | `Values` has six cells. |
| OsdrEntity.ValuesFollowTags | services/go-iss/internal/infrastructure/repository/osdr/entity.go:9-28 | Cell i holds the field tagged with `dataset_id, title, status, updated_at, inserted_at, raw` at i. `id` is never among them, and the identity does not affect the values. |
| OsdrEntity.GetID | services/go-iss/internal/infrastructure/repository/osdr/entity.go:30-32 | The identity is the int64 `ID`. |
| OsdrEntity.ValuesOverrunWritable | services/go-iss/internal/infrastructure/repository/osdr/entity.go:19-28 | As written, the row is one cell longer than the insert columns, and the cell under `raw` is not the raw payload. |
| OsdrEntity.WritableValues | services/go-iss/internal/infrastructure/repository/osdr/column.go:4-10 | Corrected values: one cell per writable column, each holding that column's field. |
| OsdrEntity.WritableRowFitsColumns | services/go-iss/internal/infrastructure/repository/osdr/entity.go:19-28 | With the corrected values, the row has one cell per insert column, each matching its column. |
| OsdrStore.DatasetSuffix | services/go-iss/internal/infrastructure/repository/osdr/storage.go:16-19 | A conflict suffix on `dataset_id` with the SET list is attached iff the dataset identifier is set. |
| OsdrStore.SaveOSDR | services/go-iss/internal/infrastructure/repository/osdr/storage.go:10-28 | A rendering error is returned without executing anything. Otherwise the one statement is executed and the database error is returned. |
| OsdrStore.SaveOsdrStatementShape | services/go-iss/internal/infrastructure/repository/osdr/storage.go:11-19 | The columns are `[id] + writable` on `osdr_items`. A nil dataset identifier gives a plain insert; otherwise the suffix targets `dataset_id`. |
| OsdrStore.PairRowMisfits | services/go-iss/internal/infrastructure/repository/osdr/storage.go:13 | As written, the single row has 2 cells (the whole row and a nil error) against 6 columns. |
| OsdrStore.CorrectedStatement | services/go-iss/internal/infrastructure/repository/osdr/storage.go:11-19 | Corrected statement: one cell per column, each holding its column's field, with the same suffix and columns. |
| OsdrStore.Count | services/go-iss/internal/infrastructure/repository/osdr/storage.go:30-41 | A rendering error gives 0 and that error. Otherwise the database's count and error are returned. |
| IssEntity.Values | services/go-iss/internal/infrastructure/repository/iss/entity.go:16-22 | `Values` has three cells. |
| IssEntity.GetID | services/go-iss/internal/infrastructure/repository/iss/entity.go:24-26 | The identity is the int64 `ID`. |
| IssEntity.ValuesRoundTrip | services/go-iss/internal/infrastructure/repository/iss/entity.go:16-22 | The values read back as `FetchedAt, SourceURL, Payload`, and they do not depend on the identity. |
| IssEntity.RowOfLog | services/go-iss/internal/infrastructure/repository/iss/entity.go:24-26 | A log with `ID` 0 is inserted with `DEFAULT`; any other log is inserted with its identity. |
| CacheEntity.Values | services/go-iss/internal/infrastructure/repository/cache/entity.go:16-22 | `Values` has three cells. |
| CacheEntity.GetID | services/go-iss/internal/infrastructure/repository/cache/entity.go:24-26 | The identity is the int64 `ID`. |
| CacheEntity.ValuesRoundTrip | services/go-iss/internal/infrastructure/repository/cache/entity.go:16-22 | The values read back as `Source, FetchedAt, Payload`, and they do not depend on the identity. |
| CacheEntity.RowOfEntry | services/go-iss/internal/infrastructure/repository/cache/entity.go:24-26 | A row with `ID` 0 is inserted with `DEFAULT`; any other row is inserted with its identity. |
| ServiceErrors.CodeTextRoundTrip | services/go-iss/internal/rpc/errors/errors.go:17-25 | Every code reads back from its wire text, so the seven texts are distinct. |
| ServiceErrors.NewUpstreamError | services/go-iss/internal/rpc/errors/errors.go:28-54 | 403 gives `UPSTREAM_403` and 404 gives `UPSTREAM_404`; 500/502/503/504 give `UPSTREAM_500`; everything else gives `UPSTREAM_ERROR`. Each holds iff its condition does. The message is the category's heading, then `: `, then the error text. |
| ServiceErrors.UpstreamHeads | services/go-iss/internal/rpc/errors/errors.go:32-53 | The message is `Upstream service returned 403 Forbidden: ` + text for 403, `Upstream service returned 404 Not Found: ` + text for 404, and `Upstream service error: ` + text otherwise. |
| ServiceErrors.NewUpstreamTimeoutError | services/go-iss/internal/rpc/errors/errors.go:56-61 | The code is `UPSTREAM_TIMEOUT`, and the message ends with the error text. |
| ServiceErrors.NewUpstreamGenericError | services/go-iss/internal/rpc/errors/errors.go:63-68 | The code is `UPSTREAM_ERROR`, and the message ends with the error text. |
| ServiceErrors.NewInternalError | services/go-iss/internal/rpc/errors/errors.go:70-75 | The code is `INTERNAL_ERROR`. The message is exactly the given message, then `: `, then the error text. |
| ServiceErrors.NewNotFoundError | services/go-iss/internal/rpc/errors/errors.go:77-82 | The code is `RESOURCE_NOT_FOUND`, and `Error()` is exactly the error text. |
| ServiceErrors.CodesIdentifyConstructor | services/go-iss/internal/rpc/errors/errors.go:28-82 | No constructor other than `NewUpstreamError` reports 403/404/500. Only the timeout constructor reports a timeout, and internal and not-found codes differ. |
| Responses.SuccessResponse | services/go-iss/internal/rpc/models/response.go:22-27 | `OK` is true, `Data` is the argument and there is no error. |
| Responses.NewErrorResponse | services/go-iss/internal/rpc/models/response.go:29-38 | `OK` is false, the error carries code, message and trace id verbatim, and there is no data. |
| Responses.ErrorResponseOfServiceError | services/go-iss/internal/rpc/models/response.go:29-38 | The envelope of a service error keeps its wire code and message, so two service errors with equal envelopes are equal. |
| JsonPick.ExtractItems | services/go-iss/internal/usecase/utils/json/json.go:53-68 | An array comes back as is. For an object, its `items` array wins over its `results` array. Anything else gives a one-element list. |
| JsonPick.ExtractItemsEmpty | services/go-iss/internal/usecase/utils/json/json.go:53-68 | The list is empty only for an empty array, or for an empty `items`/`results` list. |
| JsonPick.ExtractString | services/go-iss/internal/usecase/utils/json/json.go:12-25 | A result comes from some listed key that is present and usable. No result means that no listed key qualifies. |
| JsonPick.ExtractStringNone | services/go-iss/internal/usecase/utils/json/json.go:12-25 | The result is nil iff no key holds a non-empty string or a number. |
| JsonPick.ExtractStringFirst | services/go-iss/internal/usecase/utils/json/json.go:13-22 | The first qualifying key, in key order, decides the result. Absent keys, empty strings and other types before it are skipped. |
| Config.EnvU64 | services/go-iss/internal/config/config.go:64-71 | A set value that parses as a uint64 is returned. An unset, empty or unparsable value gives the default. Every result is a uint64 or the default. |
| Config.EnvU64Accepts | services/go-iss/internal/config/config.go:64-68 | A set value of decimal digits below 2^64 is returned as its decimal value, e.g. `0600` gives 600. |
| Config.EnvU64RoundTrip | services/go-iss/internal/config/config.go:66-68 | Every uint64 written in decimal is read back. |
| Config.EnvU64Rejects | services/go-iss/internal/config/config.go:66-70 | A non-digit, signed or overflowing value gives the default. |
| Config.Retry | services/go-iss/internal/config/config.go:38-45 | Each interval is read from its own variable with its own default: `FETCH_EVERY_SECONDS` 600, `ISS_EVERY_SECONDS` 120, `APOD_EVERY_SECONDS` 43200, `NEO_EVERY_SECONDS` 7200, `DONKI_EVERY_SECONDS` 3600, `SPACEX_EVERY_SECONDS` 3600. |
| Config.SetupBackgroundConfig | services/go-iss/internal/config/config.go:37-62 | The setup never fails. Its intervals are those `Retry` reads, and each is below 2^64. |
| Config.DefaultIntervals | services/go-iss/internal/config/config.go:38-45 | With nothing set, the intervals are 600, 120, 43200, 7200, 3600 and 3600 seconds. |
| Strconv.ParseUint64 | services/go-iss/internal/config/config.go:66 | `strconv.ParseUint(v, 10, 64)` succeeds only on a non-empty string of decimal digits, and its value is below 2^64. |
| Strconv.ParseUint64Accepts | services/go-iss/internal/config/config.go:66 | Every non-empty string of decimal digits whose value is below 2^64 parses to that value. |
| Strconv.Atoi | services/go-iss/internal/rpc/handlers/osdr/osdr_list_get/handler.go:33 | `strconv.Atoi` succeeds only with a value in the int64 range. |
| Strconv.ParseUintOfFormat | services/go-iss/internal/config/config.go:66 | `ParseUint` reads back every uint64 `FormatUint` renders. |
| Strconv.AtoiOfFormat | services/go-iss/internal/rpc/handlers/osdr/osdr_list_get/handler.go:33 | `Atoi` reads back every int64, signed or not. |
| Handlers.SourcesOf | services/go-iss/internal/rpc/handlers/space/space_refresh_get/handler.go:29-37 | Element i is piece i of the `,`-split of `src` (or of the default list), trimmed. |
| Handlers.ParseSources | services/go-iss/internal/rpc/handlers/space/space_refresh_get/handler.go:29-37 | The in-place trimming loop computes `SourcesOf`. |
| Handlers.SourcesShape | services/go-iss/internal/rpc/handlers/space/space_refresh_get/handler.go:34-37 | There are commas + 1 elements (empty ones kept). None contains a comma or starts or ends with white space. |
| Handlers.SourcesRoundTrip | services/go-iss/internal/rpc/handlers/space/space_refresh_get/handler.go:34-37 | A comma-joined list of trimmed, comma-free names parses back to the list. |
| Handlers.DefaultRequest | services/go-iss/internal/rpc/handlers/space/space_refresh_get/handler.go:30-32 | An empty `src` asks for `apod, neo, flr, cme, spacex`. |
| Handlers.ParseLimit | services/go-iss/internal/rpc/handlers/osdr/osdr_list_get/handler.go:30-36 | An absent limit is 20. A parsable positive limit is used; anything else is 20. The limit is always at least 1. |
| Text.Split | services/go-iss/internal/rpc/handlers/space/space_refresh_get/handler.go:34 | `strings.Split` always yields at least one piece. |
| Text.SplitLength | services/go-iss/internal/rpc/handlers/space/space_refresh_get/handler.go:34 | The number of pieces is the number of separators + 1. |
| Text.JoinSplit | services/go-iss/internal/rpc/handlers/space/space_refresh_get/handler.go:34 | Joining the pieces with the separator gives the input back. |
| Text.TrimSpaceIsInnerSlice | services/go-iss/internal/rpc/handlers/space/space_refresh_get/handler.go:36 | `TrimSpace` returns a slice of its input with no surrounding white space. |
| Text.TrimSpaceIdempotent | services/go-iss/internal/rpc/handlers/space/space_refresh_get/handler.go:36 | Trimming twice equals trimming once. |
| Text.ToLower | services/go-iss/internal/usecase/fetch_and_store_space/service.go:34 | Lower-casing keeps the length and maps each character. |
| Text.OccursContains | services/go-iss/internal/usecase/fetch_and_store_iss/service.go:33 | An occurrence at some position makes `strings.Contains` true. |
| FetchIss.ClassifyFetchError | services/go-iss/internal/usecase/fetch_and_store_iss/service.go:29-39 | The code is a timeout iff the status is 0 and the lower-cased text mentions `timeout` or `deadline exceeded`. Otherwise status 0 is generic and a non-zero status is classified by `NewUpstreamError`. The message ends with the error text. |
| FetchIss.TimeoutInAnyCase | services/go-iss/internal/usecase/fetch_and_store_iss/service.go:32-33 | `timeout` in any letter case is recognised. |
| FetchIss.StatusWinsOverText | services/go-iss/internal/usecase/fetch_and_store_iss/service.go:31-38 | A 403, 404 or server-failure status is never classified as a timeout or generic failure, whatever the text. |
| FetchIss.NewLog | services/go-iss/internal/usecase/fetch_and_store_iss/service.go:46-49 | The saved log is inserted with `DEFAULT` for its identity, the zero time, the client's URL and the payload. |
| FetchIss.ReadBackSpec | services/go-iss/internal/usecase/fetch_and_store_iss/service.go:56-64 | The read-back asks for one row by descending identity, with fields `[idField, fetched_at, source_url, payload]`. |
| FetchIss.ReadBack | services/go-iss/internal/usecase/fetch_and_store_iss/service.go:66-74 | `ErrNotFound` becomes not found and other errors become internal. A non-empty result gives its first row; an empty one panics on the index. |
| FetchIss.ReadBackChecked | services/go-iss/internal/usecase/fetch_and_store_iss/service.go:66-74 | Corrected read-back: it never panics, an empty result is not found, and it agrees with `ReadBack` elsewhere. |
| FetchIss.EmptyReadBackPanics | services/go-iss/internal/usecase/fetch_and_store_iss/service.go:74 | As written, a successful save followed by an empty read-back panics. The corrected version answers `RESOURCE_NOT_FOUND` / `entity not found`. |
| FetchIss.FetchAndStoreISS | services/go-iss/internal/usecase/fetch_and_store_iss/service.go:28-75 | A fetch error is classified, and nothing is saved or queried. A marshal error is internal, with nothing saved. A save error is internal, with no read-back. Otherwise the read-back specification is queried and `ReadBack` decides the outcome. |
| FetchOsdr.ItemFor | services/go-iss/internal/usecase/fetch_and_store_osdr/service.go:52-67 | The item has the key as dataset identifier and title, no status or update time, and the re-encoded object as raw. |
| FetchOsdr.ItemIdentityIsDefault | services/go-iss/internal/usecase/fetch_and_store_osdr/service.go:60-61 | The item's identity is unset, so its row is inserted with `DEFAULT`. |
| FetchOsdr.StoreDatasets | services/go-iss/internal/usecase/fetch_and_store_osdr/service.go:45-74 | In any visiting order, the items attempted are exactly the object-valued entries. `written` is the number of those the repository accepted. |
| FetchOsdr.FetchAndStoreOSDR | services/go-iss/internal/usecase/fetch_and_store_osdr/service.go:26-77 | A fetch error is classified as timeout or generic and writes 0. A non-object response is a generic error with 0 written. Otherwise there is no error, and `written` is as in `StoreDatasets`. |
| FetchOsdr.WrittenBounds | services/go-iss/internal/usecase/fetch_and_store_osdr/service.go:45-76 | `written` never exceeds the number of datasets, and equals it when every save succeeds. |
| FetchOsdr.ItemsAreUpserted | services/go-iss/internal/usecase/fetch_and_store_osdr/service.go:60-69 | Every item carries a dataset identifier, so every save is an upsert on `dataset_id`. |
| RefreshSpace.FeedFor | services/go-iss/internal/usecase/fetch_and_store_space/service.go:39-55 | Exactly `apod, neo, flr, cme, spacex` select a feed. NEO covers 2 days and the DONKI feeds 5. |
| RefreshSpace.Normalise | services/go-iss/internal/usecase/fetch_and_store_space/service.go:34 | The normalised name is no longer than the input and has no surrounding white space. |
| RefreshSpace.AttemptOf | services/go-iss/internal/usecase/fetch_and_store_space/service.go:33-79 | An unknown name is skipped. A source is refreshed under its normalised name iff that request's fetch, marshal and save all succeed. A fetch failure is only logged. |
| RefreshSpace.RepeatedSourceFetchedTwice | services/go-iss/internal/usecase/fetch_and_store_space/service.go:33-79 | A source requested twice is fetched twice: when the first fetch fails and the second succeeds, it is refreshed once and one failure is logged. |
| RefreshSpace.RefreshSpace | services/go-iss/internal/usecase/fetch_and_store_space/service.go:30-83 | The loop's refreshed list and log are those of `RefreshedNames` and `LogLines`, and the error is always nil. |
| RefreshSpace.RefreshedAreKnown | services/go-iss/internal/usecase/fetch_and_store_space/service.go:30-82 | Every refreshed name is a known source. Refreshed names plus log lines never outnumber the requests. |
| RefreshSpace.RefreshedIsSubsequence | services/go-iss/internal/usecase/fetch_and_store_space/service.go:30-82 | The refreshed list is an order-preserving subsequence of the normalised requests. |
| RefreshSpace.AllSucceed | services/go-iss/internal/usecase/fetch_and_store_space/service.go:30-82 | When every call succeeds, nothing is logged and every known request is refreshed, in order. |
| RefreshSpace.DefaultRequestRefreshesAll | services/go-iss/internal/rpc/handlers/space/space_refresh_get/handler.go:29-39 | The handler's default request refreshes all five sources when every call succeeds. |
| ReadServices.FirstOrNotFound | services/go-iss/internal/usecase/get_last_iss/service.go:29-41 | A result exists iff the find returned a non-empty list, and it is the first row. `ErrNotFound` and an empty list are not found; other errors are internal. |
| ReadServices.LastIssSpec | services/go-iss/internal/usecase/get_last_iss/service.go:23-27 | The specification is one row by descending identity, with fields `["*"]`. |
| ReadServices.GetLastISS | services/go-iss/internal/usecase/get_last_iss/service.go:22-42 | The answer is `FirstOrNotFound` of the find's answer to `LastIssSpec`. |
| ReadServices.IssInternalErrorDoubleColon | services/go-iss/internal/usecase/get_last_iss/service.go:34 | An internal error prints `Failed to find ISS data:: ` followed by the error text. |
| ReadServices.LatestCacheSpec | services/go-iss/internal/usecase/get_latest_space_cache/service.go:23-27 | The specification is one row of the source, with fields `["*"]`. |
| ReadServices.GetLatestSpaceCache | services/go-iss/internal/usecase/get_latest_space_cache/service.go:22-42 | The answer is `FirstOrNotFound` of the find's answer to `LatestCacheSpec`. |
| ReadServices.NoRowsAndEmptyAgree | services/go-iss/internal/usecase/get_latest_space_cache/service.go:30-39 | A wrapped "no rows" (through `Find`) and an empty result give the same `RESOURCE_NOT_FOUND` / `entity not found`. |
| ReadServices.OsdrLimit | services/go-iss/internal/usecase/get_osdr_list/service.go:23-25 | A limit of 0 or less becomes 20; a positive limit is kept. |
| ReadServices.GetOSDRList | services/go-iss/internal/usecase/get_osdr_list/service.go:22-38 | `ErrNotFound` gives an empty page and no error. Other errors are internal, and items are returned unchanged. |
| ReadServices.OsdrPageLimit | services/go-iss/internal/usecase/get_osdr_list/service.go:23-27 | The page limit reaching the builder is positive and not wrapped. |
| SpaceSummary.SetField | services/go-iss/internal/usecase/get_space_summary/service.go:33-44 | The switch stores the item in its source's field and changes no other field. |
| SpaceSummary.DecodedPayload | services/go-iss/internal/usecase/utils/json/json.go:70-76 | The payload is the decoded JSON, or an empty object when decoding fails. |
| SpaceSummary.LatestCacheItem | services/go-iss/internal/usecase/get_space_summary/service.go:59-76 | A find error or an empty result gives the empty item. Otherwise the item holds the newest row's fetch time and decoded payload. |
| SpaceSummary.LastIssItemSpec | services/go-iss/internal/usecase/get_space_summary/service.go:79-83 | The ISS lookup is one row, with fields `fetched_at, payload`. |
| SpaceSummary.LastIssItem | services/go-iss/internal/usecase/get_space_summary/service.go:78-95 | The fallback and fields are the same as for a cache item, over the ISS lookup. |
| SpaceSummary.GetSpaceSummary | services/go-iss/internal/usecase/get_space_summary/service.go:27-57 | Each of the five sources is looked up and stored in its own field. The ISS field is set from the ISS lookup. The count is whatever `Count` returned, and its error is only logged. The error is always nil. |
| SpaceSummary.SummaryCoversRefreshableSources | services/go-iss/internal/usecase/get_space_summary/service.go:30 | The summary reads exactly the sources a refresh can write. |
| Scheduler.AsError | services/go-iss/cmd/main/main.go:142-145 | As written, the closure's `error` is never nil: a nil `*ServiceError` prints `<nil>`. |
| Scheduler.AsErrorChecked | services/go-iss/cmd/main/main.go:142-145 | Corrected conversion: the result is nil iff there was no service error. |
| Scheduler.TicksBeforeDone | services/go-iss/cmd/main/main.go:181-190 | The count is the ticks before the first `Done`: every counted event is a tick, and the next one is `Done`. |
| Scheduler.BackgroundTask | services/go-iss/cmd/main/main.go:173-191 | A non-positive interval panics before any run. Otherwise there are 1 + (ticks before the first `Done`) runs, every non-nil outcome is logged and never stops the loop, and it stops iff `Done` arrives. |
| Scheduler.EveryRunIsLogged | services/go-iss/cmd/main/main.go:142-191 | As written, every run is logged, and a successful run logs `<name> err: <nil>`. |
| Scheduler.OnlyFailuresLogged | services/go-iss/cmd/main/main.go:177-188 | With the corrected conversion, the log has one line per failed run. |
| Scheduler.Int64 | services/go-iss/cmd/main/main.go:142 | int64 arithmetic wraps modulo 2^64 into the signed range. |
| Scheduler.Interval | services/go-iss/cmd/main/main.go:142 | `Duration(s) * Second` is s·10^9 when that fits int64, and wraps otherwise. |
| Scheduler.StartBackgroundTasks | services/go-iss/cmd/main/main.go:137-171 | Six jobs, with distinct names: OSDR, ISS, APOD, NEO, DONKI and SpaceX. Each ticks at `Interval` of its own configuration field. OSDR and ISS store; the others refresh `apod`, `neo`, `flr`+`cme` and `spacex`. |
| Scheduler.RefreshJobsCoverSources | services/go-iss/cmd/main/main.go:152-170 | The APOD, NEO, DONKI and SpaceX jobs between them refresh `apod, neo, flr, cme, spacex`, each once. OSDR and ISS are not refresh jobs. |
| Scheduler.DefaultSchedule | services/go-iss/cmd/main/main.go:142-170 | With default settings, each job's interval is its default in nanoseconds and is positive. |
| Scheduler.NonPositiveIntervals | services/go-iss/cmd/main/main.go:174 | Zero seconds, or a count whose nanoseconds overflow int64, gives a non-positive interval. |
| Scheduler.PositiveIntervals | services/go-iss/cmd/main/main.go:142-170 | A positive count up to 9223372036 seconds gives that many nanoseconds. |
| Scheduler.ZeroSettingStopsOsdrJob | services/go-iss/internal/config/config.go:39 | `FETCH_EVERY_SECONDS=0` is accepted by the config, yet gives the OSDR job a zero interval. |

## Left out

- **HTTP clients, PostgreSQL, squirrel `ToSql`, `json.Marshal`/`Unmarshal` and `time.Now`.** These are parameters: functions from the request to the answer. The model does not render SQL text or placeholders, and it does not model database semantics (identity generation, conflict resolution).
- **`time_util.LastDays`.** Only its day count (2 or 5) is kept in the feed request.
- **Unicode.** `strings.ToLower` and `strings.TrimSpace` are modelled on ASCII letters and ASCII white space.
- **`ExtractString`'s `%.0f` number branch.** This is an abstract number-to-text parameter; floats are not modelled.
- **`ExtractTime`.** It is not modelled: it parses time formats. The use cases do not call it.
- **Trace IDs and HTTP response writing in the handlers.** These are not modelled; only the `src` and `limit` parsing is.
- **The ISS and cache column lists.** `internal/infrastructure/repository/iss/column.go` and `cache/column.go` are not part of this model. The saves of ISS logs and cache rows are oracles, and reads use the identity field as a parameter.
- **The `Columns` accessors.** `Schema.ForInsert`, `Schema.GetIDField` and `Schema.GetAlias` have no contract of their own: they return a descriptor field. Their use is stated by `Repository.InsertColumns` and `Repository.GetIDFieldName`.
- **Scheduler concurrency.**
  - Goroutines and contexts are replaced by a finite event sequence.
  - Go's random choice when a tick and `Done` are ready together is not modelled.
  - A sequence that ends without `Done` leaves the loop "waiting".
  - The k-th run's outcome is a parameter.
- **Clocks.** `RefreshSpace` reads the clock once per request position (a parameter). Log lines carry no timestamps.
- **Per-call answers in `RefreshSpace`.** The upstream client, the encoder and the repository are indexed by request position, so each call may answer differently. The other use cases' oracles are functions of the request alone, so two identical requests in one run get the same answer.
- **Scheduler.BackgroundTask: the panic.** The `NewTicker` panic is an ending state, not a crash of the process.
- **FetchOsdr.StoreDatasets: map order.** Go's randomised map order is modelled as an arbitrary choice of the next key. The count is proved for every order.

## Findings

| source | as written | input that shows it | evidently intended | confidence | as-written member | corrected member |
|---|---|---|---|---|---|---|
| services/go-iss/internal/infrastructure/repository/osdr/entity.go:19-28 | `Values` returns six cells, including `InsertedAt`, against five writable columns. The row under `[id] + writable` is one cell too long, and `raw` would receive `inserted_at`. | any `OSDRItem` | one cell per writable column, in column order | not executed | OsdrEntity.ValuesOverrunWritable | OsdrEntity.WritableRowFitsColumns |
| services/go-iss/internal/infrastructure/repository/osdr/storage.go:13 | `Values(r.GetValuesForEntity(entity))` passes the `(row, error)` pair as two arguments. The row is one slice argument and the error is another: 2 cells for 6 columns. | any `OSDRItem`, e.g. the one `FetchAndStoreOSDR` builds for a dataset | the row's cells spread over the columns | not executed | OsdrStore.PairRowMisfits | OsdrStore.CorrectedStatement |
| services/go-iss/internal/usecase/fetch_and_store_iss/service.go:74 | `&createdLog[0]` has no length check. | a save that succeeds and a read-back that returns an empty list without error | report not found, as GetLastISS does at get_last_iss/service.go:37-39 | not executed | FetchIss.EmptyReadBackPanics | FetchIss.ReadBackChecked |
| services/go-iss/cmd/main/main.go:142-170 | The closures return a `*ServiceError` as `error`, so a nil pointer becomes a non-nil interface. | any successful run of any job: `backgroundTask` logs `OSDR err: <nil>` | log only failed runs | not executed | Scheduler.EveryRunIsLogged | Scheduler.OnlyFailuresLogged |
