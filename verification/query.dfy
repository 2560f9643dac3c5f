/** The three find specifications and the structure of the select builder
    they refine.  A specification contributes the requested field list and a
    rule that adds filters, ordering and a limit to a builder that already
    holds the select list and the table. */
module Query {
  import opened Wrappers

  /** 2^64: uint64 arithmetic is modulo this. */
  const Uint64Modulus: nat := 0x1_0000_0000_0000_0000

  /** `uint64(x)` for a Go `int`: two's-complement reinterpretation. */
  function Uint64(x: int): (r: nat)
    ensures r < Uint64Modulus
    ensures (r - x) % Uint64Modulus == 0
  {
    x % Uint64Modulus
  }

  /** sq.Eq{column: value}. */
  datatype Filter = Eq(column: string, value: string)

  /** The parts of a squirrel SelectBuilder the specifications touch. */
  datatype SelectQuery = SelectQuery(
    columns: seq<string>,
    from: string,
    filters: seq<Filter>,
    orderBy: seq<string>,
    limit: Option<nat>)

  /** st.Select(columns...).From(table). */
  function Select(columns: seq<string>, table: string): (q: SelectQuery)
    ensures q.columns == columns && q.from == table
    ensures q.filters == [] && q.orderBy == [] && q.limit == None
  {
    SelectQuery(columns, table, [], [], None)
  }

  /** builder.Where(f): filters accumulate. */
  function Where(q: SelectQuery, f: Filter): SelectQuery
  {
    q.(filters := q.filters + [f])
  }

  /** builder.OrderBy(o): order terms accumulate. */
  function OrderBy(q: SelectQuery, o: string): SelectQuery
  {
    q.(orderBy := q.orderBy + [o])
  }

  /** builder.Limit(n): the last limit wins. */
  function Limit(q: SelectQuery, n: nat): SelectQuery
  {
    q.(limit := Some(n))
  }

  /** The column every specification except the OSDR list orders by is the
      repository's identity column, descending. */
  function Descending(column: string): string
  {
    column + " DESC"
  }

  const OsdrOrder: string := "inserted_at DESC"
  const SourceColumn: string := "source"

  datatype Spec =
    | LastNByIdDesc(idField: string, limit: int, fields: seq<string>)   // iss specification
    | LastNBySource(idField: string, limit: int, sourceName: string)    // space_cache specification
    | OsdrList(limit: int)                                              // osdr specification

  /** GetRule of each specification. */
  function GetRule(s: Spec, b: SelectQuery): (r: SelectQuery)
    ensures r.columns == b.columns && r.from == b.from
    ensures r.limit == Some(Uint64(s.limit))
    ensures |r.orderBy| == |b.orderBy| + 1 && r.orderBy[..|b.orderBy|] == b.orderBy
    ensures r.orderBy[|b.orderBy|] == (if s.OsdrList? then OsdrOrder else Descending(s.idField))
    ensures s.LastNBySource? ==> r.filters == b.filters + [Eq(SourceColumn, s.sourceName)]
    ensures !s.LastNBySource? ==> r.filters == b.filters
  {
    match s
    case LastNByIdDesc(idField, limit, _) =>
      Limit(OrderBy(b, Descending(idField)), Uint64(limit))
    case LastNBySource(idField, limit, sourceName) =>
      Limit(OrderBy(Where(b, Eq(SourceColumn, sourceName)), Descending(idField)), Uint64(limit))
    case OsdrList(limit) =>
      Limit(OrderBy(b, OsdrOrder), Uint64(limit))
  }

  /** GetFields of each specification: the stored list for the id-ordered
      specification, the wildcard for the other two. */
  function GetFields(s: Spec): (r: seq<string>)
    ensures s.LastNByIdDesc? ==> r == s.fields
    ensures !s.LastNByIdDesc? ==> r == ["*"]
  {
    match s
    case LastNByIdDesc(_, _, fields) => fields
    case _ => ["*"]
  }

  /** A limit in the non-negative int64 range reaches the builder unchanged;
      a negative one wraps to a huge unsigned limit. */
  lemma {:induction false} LimitConversion(limit: int)
    requires -0x8000_0000_0000_0000 <= limit < 0x8000_0000_0000_0000
    ensures 0 <= limit ==> Uint64(limit) == limit
    ensures limit < 0 ==> Uint64(limit) == Uint64Modulus + limit && Uint64(limit) >= 0x8000_0000_0000_0000
  {
  }

  /** The by-source rule is the by-id rule applied after one equality
      filter on the `source` column. */
  lemma {:induction false} BySourceIsFilteredById(idField: string, limit: int, sourceName: string, fields: seq<string>, b: SelectQuery)
    ensures GetRule(LastNBySource(idField, limit, sourceName), b)
         == GetRule(LastNByIdDesc(idField, limit, fields), Where(b, Eq(SourceColumn, sourceName)))
  {
  }

  /** The OSDR list rule never looks at an identity column: it is the same
      as an id-ordered rule whose "identity" is `inserted_at`. */
  lemma {:induction false} OsdrListOrdersByInsertion(limit: int, fields: seq<string>, b: SelectQuery)
    ensures GetRule(OsdrList(limit), b) == GetRule(LastNByIdDesc("inserted_at", limit, fields), b)
  {
    assert Descending("inserted_at") == OsdrOrder;
  }
}
