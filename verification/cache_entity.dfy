/** One row of the space-data cache, as the repository stores it. */
module CacheEntity {
  import opened Wrappers
  import opened Cells
  import opened Repository

  const TableName: string := "space_cache"
  const Alias: string := "sc"
  const IdField: string := "id"

  /** SpaceCache; `id` is an int64, 0 until the database assigns one. */
  datatype SpaceCache = SpaceCache(id: int, source: string, fetchedAt: Instant, payload: Bytes)

  /** SpaceCache.Values: the stored fields, without the identity. */
  function Values(s: SpaceCache): (r: seq<Cell>)
    ensures |r| == 3
  {
    [TextCell(s.source), TimeCell(s.fetchedAt), JsonCell(s.payload)]
  }

  /** SpaceCache.GetID. */
  function GetID(s: SpaceCache): (r: Id)
    ensures r.Int64Id? && r.n == s.id
  {
    Int64Id(s.id)
  }

  /** The record as the generic repository sees it. */
  function AsDto(s: SpaceCache): Dto
  {
    Dto(GetID(s), Values(s))
  }

  /** Reads a value row back into the fields it was built from. */
  function FromValues(cells: seq<Cell>): Option<(string, Instant, Bytes)>
  {
    if |cells| == 3 && cells[0].TextCell? && cells[1].TimeCell? && cells[2].JsonCell? then
      Some((cells[0].text, cells[1].at, cells[2].bytes))
    else None
  }

  /** Values keeps every stored field, in the order source, fetched_at,
      payload, and does not depend on the identity. */
  lemma {:induction false} ValuesRoundTrip(s: SpaceCache, otherId: int)
    ensures FromValues(Values(s)) == Some((s.source, s.fetchedAt, s.payload))
    ensures Values(s.(id := otherId)) == Values(s)
  {
  }

  /** An entry built without an identity is inserted with DEFAULT; one with
      an identity is inserted with it. */
  lemma {:induction false} RowOfEntry(s: SpaceCache)
    ensures GetValuesForEntity(AsDto(s)).Ok?
    ensures s.id == 0 ==> GetValuesForEntity(AsDto(s)).value == [DefaultMarker] + Values(s)
    ensures s.id != 0 ==> GetValuesForEntity(AsDto(s)).value == [IdCell(Int64Id(s.id))] + Values(s)
  {
  }
}
