/** One OSDR dataset item, as the repository stores it. */
module OsdrEntity {
  import opened Wrappers
  import opened Cells
  import opened Repository
  import opened OsdrColumns

  /** OSDRItem; `id` is an int64, 0 until the database assigns one.  The
      optional fields are the struct's pointer fields. */
  datatype OsdrItem = OsdrItem(
    id: int,
    datasetId: Option<string>,
    title: Option<string>,
    status: Option<string>,
    updatedAt: Option<Instant>,
    insertedAt: Instant,
    raw: Bytes)

  /** The cell a column holds for an item, by the struct's `db` tags. */
  function CellFor(o: OsdrItem, column: string): Option<Cell>
  {
    match column
    case "id" => Some(IdCell(Int64Id(o.id)))
    case "dataset_id" => Some(NullableText(o.datasetId))
    case "title" => Some(NullableText(o.title))
    case "status" => Some(NullableText(o.status))
    case "updated_at" => Some(NullableTime(o.updatedAt))
    case "inserted_at" => Some(TimeCell(o.insertedAt))
    case "raw" => Some(JsonCell(o.raw))
    case _ => None
  }

  /** The columns OSDRItem.Values follows, in order. */
  const ValueColumns: seq<string> := ["dataset_id", "title", "status", "updated_at", "inserted_at", "raw"]

  /** OSDRItem.Values. */
  function Values(o: OsdrItem): (r: seq<Cell>)
    ensures |r| == 6
  {
    [NullableText(o.datasetId), NullableText(o.title), NullableText(o.status),
     NullableTime(o.updatedAt), TimeCell(o.insertedAt), JsonCell(o.raw)]
  }

  /** OSDRItem.GetID. */
  function GetID(o: OsdrItem): (r: Id)
    ensures r.Int64Id? && r.n == o.id
  {
    Int64Id(o.id)
  }

  /** The item as the generic repository sees it. */
  function AsDto(o: OsdrItem): Dto
  {
    Dto(GetID(o), Values(o))
  }

  /** Values holds, in order, the cells of dataset_id, title, status,
      updated_at, inserted_at and raw; it never holds the identity. */
  lemma {:induction false} ValuesFollowTags(o: OsdrItem, otherId: int)
    ensures forall i :: 0 <= i < |ValueColumns| ==> CellFor(o, ValueColumns[i]) == Some(Values(o)[i])
    ensures IdField !in ValueColumns
    ensures Values(o.(id := otherId)) == Values(o)
  {
  }

  /** As written, an item's insert row is one cell wider than the insert
      column list, and the cell standing under `raw` is the insertion
      time rather than the payload. */
  lemma {:induction false} ValuesOverrunWritable(o: OsdrItem)
    ensures |Values(o)| == |Writable| + 1
    ensures GetValuesForEntity(AsDto(o)).Ok?
    ensures |GetValuesForEntity(AsDto(o)).value| == |InsertColumns(Descriptor)| + 1
    ensures Writable[4] == "raw" && Some(Values(o)[4]) != CellFor(o, Writable[4])
  {
  }

  /** The values of the writable columns, one per column, in column order. */
  function WritableValues(o: OsdrItem): (r: seq<Cell>)
    ensures |r| == |Writable|
    ensures forall i :: 0 <= i < |Writable| ==> CellFor(o, Writable[i]) == Some(r[i])
  {
    [NullableText(o.datasetId), NullableText(o.title), NullableText(o.status),
     NullableTime(o.updatedAt), JsonCell(o.raw)]
  }

  /** The item as the repository should see it: identity and writable values. */
  function AsWritableDto(o: OsdrItem): Dto
  {
    Dto(GetID(o), WritableValues(o))
  }

  /** With the writable values, every cell of the insert row stands under
      its own column. */
  lemma {:induction false} WritableRowFitsColumns(o: OsdrItem)
    ensures GetValuesForEntity(AsWritableDto(o)).Ok?
    ensures var row := GetValuesForEntity(AsWritableDto(o)).value;
      |row| == |InsertColumns(Descriptor)|
      && forall i :: 1 <= i < |row| ==> CellFor(o, InsertColumns(Descriptor)[i]) == Some(row[i])
  {
    var row := GetValuesForEntity(AsWritableDto(o)).value;
    forall i | 1 <= i < |row|
      ensures CellFor(o, InsertColumns(Descriptor)[i]) == Some(row[i])
    {
      assert InsertColumns(Descriptor)[i] == Writable[i - 1];
      assert row[i] == WritableValues(o)[i - 1];
    }
  }
}
