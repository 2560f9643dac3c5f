/** The generic repository: how an entity becomes an insert row, how a
    batch becomes one upsert statement, and how a find specification
    becomes a select query and its errors are mapped.  Rendering SQL text
    (`ToSql`) and talking to the database are oracles passed in by the
    caller. */
module Repository {
  import opened Wrappers
  import opened GoErrors
  import opened Cells
  import opened Schema
  import opened Query

  /** What the repository asks of an entity: `GetID()` and `Values()`. */
  datatype Dto = Dto(id: Id, values: seq<Cell>)

  /** A Repository[ID, M, T]: its schema descriptor and its table. */
  datatype Repo = Repo(columns: Columns, tableName: string)

  /** A rendered statement: SQL text and its arguments. */
  datatype Sql = Sql(text: string, args: seq<Cell>)

  /** The structure of an insert builder before rendering. */
  datatype InsertStatement = InsertStatement(
    table: string,
    columns: seq<string>,
    rows: seq<seq<Cell>>,
    suffix: Option<string>)

  const ContextGenerating: string := "generating update query"
  const ContextValues: string := "getting values to update"
  const ContextExecute: string := "execute update query"

  /** The conflict clause head of every generic upsert. */
  const IdConflictPrefix: string := "ON CONFLICT (id) DO UPDATE SET "

  /** The zero value of an identity type the repository understands: the
      database is to assign the identity. */
  predicate IsUnset(id: Id)
  {
    id == Int64Id(0) || id == UuidId(NilUuid)
  }

  /** isDefault. */
  function IsDefault(id: Id): (r: Result<bool, GoError>)
    ensures r.Err? <==> id.OtherId?
    ensures r.Err? ==> r.error == UnknownIdType
    ensures r.Ok? ==> (r.value <==> IsUnset(id))
  {
    match id
    case Int64Id(n) => Ok(n == 0)
    case UuidId(u) => Ok(u == NilUuid)
    case OtherId(_) => Err(UnknownIdType)
  }

  /** GetValuesForEntity: the identity cell (or DEFAULT) followed by the
      entity's values. */
  function GetValuesForEntity(e: Dto): (r: Result<seq<Cell>, GoError>)
    ensures r.Err? <==> e.id.OtherId?
    ensures r.Err? ==> r.error == UnknownIdType
    ensures r.Ok? ==> |r.value| == 1 + |e.values| && r.value[1..] == e.values
    ensures r.Ok? ==> (r.value[0] == DefaultMarker <==> IsUnset(e.id))
    ensures r.Ok? && !IsUnset(e.id) ==> r.value[0] == IdCell(e.id)
  {
    match IsDefault(e.id)
    case Err(err) => Err(err)
    case Ok(isDef) =>
      if isDef then Ok([DefaultMarker] + e.values) else Ok([IdCell(e.id)] + e.values)
  }

  /** The identity a row asks the database for: None for DEFAULT. */
  function RowIdentity(row: seq<Cell>): Option<Id>
    requires |row| > 0
  {
    if row[0].IdCell? then Some(row[0].id) else None
  }

  /** A row gives back the entity's values and, unless the identity is
      unset, the identity itself. */
  lemma {:induction false} RowRoundTrip(e: Dto)
    requires !e.id.OtherId?
    ensures var row := GetValuesForEntity(e).value;
      row[1..] == e.values
      && RowIdentity(row) == (if IsUnset(e.id) then None else Some(e.id))
  {
  }

  /** The rows of a batch, or the first entity's error. */
  function RowsFor(es: seq<Dto>): Result<seq<seq<Cell>>, GoError>
  {
    if |es| == 0 then Ok([])
    else
      match RowsFor(es[..|es| - 1])
      case Err(err) => Err(err)
      case Ok(rows) =>
        match GetValuesForEntity(es[|es| - 1])
        case Err(err) => Err(err)
        case Ok(row) => Ok(rows + [row])
  }

  /** A batch yields rows exactly when every identity is understood; then
      there is one row per entity, in order. */
  lemma {:induction false} RowsForAllOrNothing(es: seq<Dto>)
    ensures RowsFor(es).Ok? <==> forall i :: 0 <= i < |es| ==> !es[i].id.OtherId?
    ensures RowsFor(es).Err? ==> RowsFor(es).error == UnknownIdType
    ensures RowsFor(es).Ok? ==>
      (|RowsFor(es).value| == |es|
       && forall i :: 0 <= i < |es| ==> Ok(RowsFor(es).value[i]) == GetValuesForEntity(es[i]))
  {
    if |es| > 0 {
      var init := es[..|es| - 1];
      RowsForAllOrNothing(init);
      assert forall i :: 0 <= i < |init| ==> init[i] == es[i];
    }
  }

  /** Once a prefix of the batch fails, the whole batch fails the same way. */
  lemma {:induction false} RowsForFirstError(es: seq<Dto>, i: nat)
    requires i <= |es| && RowsFor(es[..i]).Err?
    ensures RowsFor(es) == RowsFor(es[..i])
    decreases |es| - i
  {
    if i < |es| {
      var init := es[..|es| - 1];
      assert init[..i] == es[..i];
      RowsForFirstError(init, i);
    } else {
      assert es[..i] == es;
    }
  }

  /** The insert column list: the identity column, then the writable ones. */
  function InsertColumns(c: Columns): (r: seq<string>)
    ensures |r| == 1 + |c.writable| && r[0] == GetIDField(c) && r[1..] == ForInsert(c)
  {
    [c.idField] + ForInsert(c)
  }

  /** The suffix of every generic upsert. */
  function ConflictSuffix(c: Columns): string
  {
    IdConflictPrefix + UpsertSetList(c)
  }

  /** The statement getUpdateQuery builds from the rows of a batch. */
  function UpdateStatement(repo: Repo, rows: seq<seq<Cell>>): InsertStatement
  {
    InsertStatement(repo.tableName, InsertColumns(repo.columns), rows, Some(ConflictSuffix(repo.columns)))
  }

  /** What getUpdateQuery returns. */
  function UpdateQuery(repo: Repo, es: seq<Dto>, toSql: InsertStatement -> Result<Sql, GoError>): Result<Sql, GoError>
  {
    match RowsFor(es)
    case Err(err) => Err(Wrapped(ContextValues, err))
    case Ok(rows) => toSql(UpdateStatement(repo, rows))
  }

  /** Repository.getUpdateQuery. */
  method GetUpdateQuery(repo: Repo, entities: seq<Dto>, toSql: InsertStatement -> Result<Sql, GoError>)
    returns (r: Result<Sql, GoError>)
    ensures r == UpdateQuery(repo, entities, toSql)
  {
    var columns := [repo.columns.idField] + ForInsert(repo.columns);
    var rows: seq<seq<Cell>> := [];
    var i := 0;
    while i < |entities|
      invariant 0 <= i <= |entities|
      invariant RowsFor(entities[..i]) == Ok(rows)
    {
      assert entities[..i + 1][..i] == entities[..i];
      var values := GetValuesForEntity(entities[i]);
      if values.Err? {
        RowsForFirstError(entities, i + 1);
        return Err(Wrapped(ContextValues, values.error));
      }
      rows := rows + [values.value];
      i := i + 1;
    }
    assert entities[..i] == entities;
    var setList := GetOnConflictStatement(repo.columns);
    var suffix := IdConflictPrefix + setList;
    r := toSql(InsertStatement(repo.tableName, columns, rows, Some(suffix)));
  }

  /** The statements SaveMany executes and the error it returns. */
  function SaveManyOutcome(repo: Repo, es: seq<Dto>,
                           toSql: InsertStatement -> Result<Sql, GoError>,
                           exec: Sql -> Option<GoError>): (seq<Sql>, Option<GoError>)
  {
    if |es| == 0 then ([], None)
    else
      match UpdateQuery(repo, es, toSql)
      case Err(err) => ([], Some(Wrapped(ContextGenerating, err)))
      case Ok(q) =>
        match exec(q)
        case None => ([q], None)
        case Some(err) => ([q], Some(Wrapped(ContextExecute, err)))
  }

  /** Repository.SaveMany: returns the statements handed to the database
      (none or one) and the error. */
  method SaveMany(repo: Repo, entities: seq<Dto>,
                  toSql: InsertStatement -> Result<Sql, GoError>,
                  exec: Sql -> Option<GoError>)
    returns (executed: seq<Sql>, err: Option<GoError>)
    ensures (executed, err) == SaveManyOutcome(repo, entities, toSql, exec)
    ensures |entities| == 0 ==> executed == [] && err == None
    ensures |executed| <= 1
  {
    if |entities| == 0 {
      return [], None;
    }
    var q := GetUpdateQuery(repo, entities, toSql);
    if q.Err? {
      return [], Some(Wrapped(ContextGenerating, q.error));
    }
    executed := [q.value];
    var e := exec(q.value);
    if e.Some? {
      return executed, Some(Wrapped(ContextExecute, e.value));
    }
    err := None;
  }

  /** Repository.Save. */
  method Save(repo: Repo, entity: Dto,
              toSql: InsertStatement -> Result<Sql, GoError>,
              exec: Sql -> Option<GoError>)
    returns (executed: seq<Sql>, err: Option<GoError>)
    ensures (executed, err) == SaveManyOutcome(repo, [entity], toSql, exec)
  {
    executed, err := SaveMany(repo, [entity], toSql, exec);
  }

  /** One entity with an identity of an unknown type aborts the whole batch
      before anything is rendered or executed; the error is the sentinel
      wrapped twice. */
  lemma {:induction false} SaveManyAbortsOnUnknownId(repo: Repo, es: seq<Dto>, i: nat,
                                  toSql: InsertStatement -> Result<Sql, GoError>,
                                  exec: Sql -> Option<GoError>)
    requires i < |es| && es[i].id.OtherId?
    ensures SaveManyOutcome(repo, es, toSql, exec).0 == []
    ensures SaveManyOutcome(repo, es, toSql, exec).1
         == Some(Wrapped(ContextGenerating, Wrapped(ContextValues, UnknownIdType)))
    ensures Is(SaveManyOutcome(repo, es, toSql, exec).1.value, UnknownIdType)
  {
    RowsForAllOrNothing(es);
  }

  /** When every identity is understood, the statement handed to the
      renderer has the identity-then-writable column list, one row per
      entity in order, and the conflict clause on the literal `id`. */
  lemma {:induction false} UpdateStatementShape(repo: Repo, es: seq<Dto>)
    requires forall i :: 0 <= i < |es| ==> !es[i].id.OtherId?
    ensures RowsFor(es).Ok?
    ensures var st := UpdateStatement(repo, RowsFor(es).value);
      st.table == repo.tableName
      && st.columns == [repo.columns.idField] + repo.columns.writable
      && |st.rows| == |es|
      && (forall i :: 0 <= i < |es| ==> Ok(st.rows[i]) == GetValuesForEntity(es[i]))
      && st.suffix == Some(IdConflictPrefix + UpsertSetList(repo.columns))
  {
    RowsForAllOrNothing(es);
  }

  /** The conflict target ignores the descriptor's identity column: two
      descriptors that differ only there give the same suffix. */
  lemma {:induction false} ConflictTargetIsLiteralId(c: Columns, otherId: string)
    ensures ConflictSuffix(c) == ConflictSuffix(c.(idField := otherId))
  {
  }

  /** With no writable column the generic suffix ends in a bare
      "DO UPDATE SET ". */
  lemma {:induction false} EmptyWritableLeavesBareSet(c: Columns)
    requires c.writable == []
    ensures ConflictSuffix(c) == IdConflictPrefix
  {
  }

  // ---------------------------------------------------------------------
  // Find

  /** The select query Find renders for a specification. */
  function FindQuery(repo: Repo, spec: Spec): (q: SelectQuery)
    ensures q.columns == SelectColumns(repo.columns, GetFields(spec))
    ensures q.from == repo.tableName
    ensures q.filters == (if spec.LastNBySource? then [Eq(SourceColumn, spec.sourceName)] else [])
    ensures q.orderBy == [if spec.OsdrList? then OsdrOrder else Descending(spec.idField)]
    ensures q.limit == Some(Uint64(spec.limit))
  {
    GetRule(spec, Select(SelectColumns(repo.columns, GetFields(spec)), repo.tableName))
  }

  /** Find's mapping of the database's answer: "no rows" anywhere in the
      wrap chain becomes ErrNotFound; everything else passes through. */
  function MapNoRows<M>(res: Result<seq<M>, GoError>): (r: Result<seq<M>, GoError>)
    ensures res.Ok? ==> r == res
    ensures res.Err? && Is(res.error, ErrNoRows) ==> r == Err(ErrNotFound)
    ensures res.Err? && !Is(res.error, ErrNoRows) ==> r == res
  {
    if res.Err? && Is(res.error, ErrNoRows) then Err(ErrNotFound) else res
  }

  /** Repository.Find. */
  method Find<M>(repo: Repo, spec: Spec,
                 toSql: SelectQuery -> Result<Sql, GoError>,
                 selectRows: Sql -> Result<seq<M>, GoError>)
    returns (r: Result<seq<M>, GoError>)
    ensures toSql(FindQuery(repo, spec)).Err? ==> r == Err(toSql(FindQuery(repo, spec)).error)
    ensures toSql(FindQuery(repo, spec)).Ok? ==> r == MapNoRows(selectRows(toSql(FindQuery(repo, spec)).value))
  {
    var fields := ForSelect(repo.columns, GetFields(spec));
    var builder := Select(fields, repo.tableName);
    builder := GetRule(spec, builder);
    var rendered := toSql(builder);
    if rendered.Err? {
      return Err(rendered.error);
    }
    var rows := selectRows(rendered.value);
    if rows.Err? {
      if Is(rows.error, ErrNoRows) {
        return Err(ErrNotFound);
      }
      return Err(rows.error);
    }
    r := Ok(rows.value);
  }

  /** Repository.GetIDFieldName. */
  function GetIDFieldName(repo: Repo): (r: string)
    ensures r == GetIDField(repo.columns)
  {
    repo.columns.idField
  }
}
