/** The values an entity hands to the insert builder: the identity kinds
    the repository accepts, opaque payload bytes, abstract timestamps, and
    the cells of one insert row. */
module Cells {
  import opened Wrappers
  import opened GoErrors

  /** A JSON payload or other byte blob, never interpreted here. */
  type Bytes = seq<bv8>

  /** A time.Time, abstracted to an ordinal; only equality matters here. */
  datatype Instant = Instant(ticks: int)

  /** Go's zero time.Time: what a struct field holds when nobody sets it. */
  const ZeroTime: Instant := Instant(0)

  /** A uuid.UUID: sixteen bytes. */
  type Uuid = u: seq<bv8> | |u| == 16 witness [0, 0, 0, 0, 0, 0, 0, 0, 0, 0, 0, 0, 0, 0, 0, 0]

  /** uuid.Nil: the all-zero UUID. */
  const NilUuid: Uuid := [0, 0, 0, 0, 0, 0, 0, 0, 0, 0, 0, 0, 0, 0, 0, 0]

  /** The dynamic type and value of an entity's GetID(). */
  datatype Id =
    | Int64Id(n: int)
    | UuidId(u: Uuid)
    | OtherId(typeName: string)

  /** One argument of a VALUES row. */
  datatype Cell =
    | DefaultMarker                   // sq.Expr("DEFAULT")
    | IdCell(id: Id)                  // an explicit identity
    | TextCell(text: string)          // string
    | NullableText(maybeText: Option<string>)  // *string
    | TimeCell(at: Instant)           // time.Time
    | NullableTime(maybeAt: Option<Instant>) // *time.Time
    | JsonCell(bytes: Bytes)          // types.JSONText
    | SliceCell(cells: seq<Cell>)     // a []interface{} passed as one argument
    | ErrorCell(err: Option<GoError>) // an error value passed as one argument
}
