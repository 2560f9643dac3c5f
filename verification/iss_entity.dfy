/** One row of the ISS fetch log, as the repository stores it. */
module IssEntity {
  import opened Wrappers
  import opened Cells
  import opened Repository

  const TableName: string := "iss_fetch_log"
  const Alias: string := "ifl"
  const IdField: string := "id"

  /** ISSFetchLog; `id` is an int64, 0 until the database assigns one. */
  datatype IssFetchLog = IssFetchLog(id: int, fetchedAt: Instant, sourceUrl: string, payload: Bytes)

  /** ISSFetchLog.Values: the stored fields, without the identity. */
  function Values(l: IssFetchLog): (r: seq<Cell>)
    ensures |r| == 3
  {
    [TimeCell(l.fetchedAt), TextCell(l.sourceUrl), JsonCell(l.payload)]
  }

  /** ISSFetchLog.GetID. */
  function GetID(l: IssFetchLog): (r: Id)
    ensures r.Int64Id? && r.n == l.id
  {
    Int64Id(l.id)
  }

  /** The record as the generic repository sees it. */
  function AsDto(l: IssFetchLog): Dto
  {
    Dto(GetID(l), Values(l))
  }

  /** Reads a value row back into the fields it was built from. */
  function FromValues(cells: seq<Cell>): Option<(Instant, string, Bytes)>
  {
    if |cells| == 3 && cells[0].TimeCell? && cells[1].TextCell? && cells[2].JsonCell? then
      Some((cells[0].at, cells[1].text, cells[2].bytes))
    else None
  }

  /** Values keeps every stored field, in the order fetched_at, source_url,
      payload, and does not depend on the identity. */
  lemma {:induction false} ValuesRoundTrip(l: IssFetchLog, otherId: int)
    ensures FromValues(Values(l)) == Some((l.fetchedAt, l.sourceUrl, l.payload))
    ensures Values(l.(id := otherId)) == Values(l)
  {
  }

  /** A log built without an identity is inserted with DEFAULT; one with an
      identity is inserted with it. */
  lemma {:induction false} RowOfLog(l: IssFetchLog)
    ensures GetValuesForEntity(AsDto(l)).Ok?
    ensures l.id == 0 ==> GetValuesForEntity(AsDto(l)).value == [DefaultMarker] + Values(l)
    ensures l.id != 0 ==> GetValuesForEntity(AsDto(l)).value == [IdCell(Int64Id(l.id))] + Values(l)
  {
  }
}
