/** The OSDR repository's own statements: the item upsert keyed on the
    dataset identifier, and the row count. */
module OsdrStore {
  import opened Wrappers
  import opened GoErrors
  import opened Cells
  import opened Schema
  import opened Query
  import opened Repository
  import opened OsdrColumns
  import opened OsdrEntity

  /** The OSDR repository: the generic one over the OSDR descriptor. */
  const Repo: Repository.Repo := Repository.Repo(Descriptor, TableName)

  /** The conflict clause head of the OSDR upsert. */
  const DatasetConflictPrefix: string := "ON CONFLICT (dataset_id) DO UPDATE SET "

  /** The conflict suffix SaveOSDR attaches: only for an item with a
      dataset identifier. */
  function DatasetSuffix(o: OsdrItem): (r: Option<string>)
    ensures r.Some? <==> o.datasetId.Some?
    ensures r.Some? ==> r.value == DatasetConflictPrefix + UpsertSetList(Descriptor)
  {
    if o.datasetId.Some? then Some(DatasetConflictPrefix + UpsertSetList(Descriptor)) else None
  }

  /** The two arguments `Values(r.GetValuesForEntity(entity))` passes: the
      whole row as one argument and the error as another.  The identity of
      an item is an int64, so the error is always nil. */
  function PairRow(o: OsdrItem): seq<Cell>
  {
    [SliceCell(GetValuesForEntity(AsDto(o)).value), ErrorCell(None)]
  }

  /** The statement SaveOSDR builds, as written. */
  function SaveOsdrStatement(o: OsdrItem): InsertStatement
  {
    InsertStatement(TableName, InsertColumns(Descriptor), [PairRow(o)], DatasetSuffix(o))
  }

  /** The error SaveOSDR reports for an item: the rendering error, else
      the database's answer. */
  function SaveError(o: OsdrItem, toSql: InsertStatement -> Result<Sql, GoError>, exec: Sql -> Option<GoError>): Option<GoError>
  {
    match toSql(SaveOsdrStatement(o))
    case Err(e) => Some(e)
    case Ok(q) => exec(q)
  }

  /** osdr.Repository.SaveOSDR: returns the statements handed to the
      database (none or one) and the error. */
  method SaveOSDR(o: OsdrItem, toSql: InsertStatement -> Result<Sql, GoError>, exec: Sql -> Option<GoError>)
    returns (executed: seq<Sql>, err: Option<GoError>)
    ensures toSql(SaveOsdrStatement(o)).Err? ==> executed == [] && err == Some(toSql(SaveOsdrStatement(o)).error)
    ensures toSql(SaveOsdrStatement(o)).Ok? ==>
      var q := toSql(SaveOsdrStatement(o)).value; executed == [q] && err == exec(q)
    ensures err == SaveError(o, toSql, exec)
  {
    var values := GetValuesForEntity(AsDto(o));
    var row := [SliceCell(values.value), ErrorCell(None)];
    var builder := InsertStatement(TableName, [GetIDField(Descriptor)] + ForInsert(Descriptor), [row], None);
    if o.datasetId.Some? {
      var onConflict := GetOnConflictStatement(Descriptor);
      builder := builder.(suffix := Some(DatasetConflictPrefix + onConflict));
    }
    var rendered := toSql(builder);
    if rendered.Err? {
      return [], Some(rendered.error);
    }
    executed := [rendered.value];
    err := exec(rendered.value);
  }

  /** The column list is the identity followed by the writable columns; the
      conflict clause, keyed on dataset_id, is attached exactly when the
      item has a dataset identifier, and a nil identifier gives a plain
      insert. */
  lemma {:induction false} SaveOsdrStatementShape(o: OsdrItem)
    ensures SaveOsdrStatement(o).columns == [IdField] + Writable
    ensures SaveOsdrStatement(o).table == TableName
    ensures o.datasetId.None? ==> SaveOsdrStatement(o).suffix == None
    ensures o.datasetId.Some? ==>
      SaveOsdrStatement(o).suffix == Some(DatasetConflictPrefix + UpsertSetList(Descriptor))
  {
  }

  /** As written, the single row has two cells against six columns: the
      whole seven-cell row packed into one argument and a nil error in the
      other. */
  lemma {:induction false} PairRowMisfits(o: OsdrItem)
    ensures |SaveOsdrStatement(o).rows| == 1
    ensures |SaveOsdrStatement(o).rows[0]| == 2 && |SaveOsdrStatement(o).columns| == 6
    ensures SaveOsdrStatement(o).rows[0][0] == SliceCell([DefaultMarker] + Values(o)) || SaveOsdrStatement(o).rows[0][0] == SliceCell([IdCell(Int64Id(o.id))] + Values(o))
    ensures SaveOsdrStatement(o).rows[0][1] == ErrorCell(None)
  {
    ValuesOverrunWritable(o);
  }

  /** The statement SaveOSDR is meant to build: the identity and writable
      values spread over the columns, same suffix. */
  function CorrectedStatement(o: OsdrItem): (st: InsertStatement)
    ensures |st.rows| == 1 && |st.rows[0]| == |st.columns|
    ensures forall i :: 1 <= i < |st.columns| ==> CellFor(o, st.columns[i]) == Some(st.rows[0][i])
    ensures st.suffix == SaveOsdrStatement(o).suffix && st.columns == SaveOsdrStatement(o).columns
  {
    WritableRowFitsColumns(o);
    InsertStatement(TableName, InsertColumns(Descriptor), [GetValuesForEntity(AsWritableDto(o)).value], DatasetSuffix(o))
  }

  /** `select count(*) from osdr_items`. */
  const CountQuery: SelectQuery := Select(["count(*)"], TableName)

  /** osdr.Repository.Count: a rendering error gives 0 and that error;
      otherwise whatever the database reports. */
  method Count(toSql: SelectQuery -> Result<Sql, GoError>, selectCount: Sql -> (int, Option<GoError>))
    returns (count: int, err: Option<GoError>)
    ensures toSql(CountQuery).Err? ==> count == 0 && err == Some(toSql(CountQuery).error)
    ensures toSql(CountQuery).Ok? ==> (count, err) == selectCount(toSql(CountQuery).value)
  {
    var builder := Select(["count(*)"], TableName);
    var rendered := toSql(builder);
    if rendered.Err? {
      return 0, Some(rendered.error);
    }
    var answer := selectCount(rendered.value);
    count, err := answer.0, answer.1;
  }
}
